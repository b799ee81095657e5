/**
 Agent keys: an id upper-cased, with everything but letters and digits folded to single underscores.
 */
module AgentKeys {
  import opened Text

  predicate IsAlnum(c: char) { 'A' <= c <= 'Z' || '0' <= c <= '9' }

  /**
   Upper case as far as keys can tell: besides the ASCII letters only two characters have an ASCII upper case, and
   every other one is folded whatever it becomes.
   */
  function Upper(c: char): char {
    if 'a' <= c <= 'z' then c - 'a' + 'A'
    else if c == '\U{131}' then 'I'
    else if c == '\U{17F}' then 'S'
    else c
  }

  function ToUpper(s: string): (r: string)
    ensures |r| == |s| && forall i :: 0 <= i < |s| ==> r[i] == Upper(s[i])
  {
    seq(|s|, i requires 0 <= i < |s| => Upper(s[i]))
  }

  /** Every maximal run of other characters becomes one underscore. */
  function Fold(s: string): string {
    if s == [] then [] else
    var rest, c := s[..|s| - 1], s[|s| - 1];
    if IsAlnum(c) then Fold(rest) + [c]
    else if rest != [] && !IsAlnum(rest[|rest| - 1]) then Fold(rest)
    else Fold(rest) + ['_']
  }

  function NormaliseId(id: string): string { Trim(Fold(ToUpper(id)), c => c == '_') }

  /** The shape of a key. */
  ghost predicate Normal(k: string) {
    && (forall i :: 0 <= i < |k| ==> IsAlnum(k[i]) || k[i] == '_')
    && (forall i :: 0 <= i < |k| - 1 ==> k[i] != '_' || k[i + 1] != '_')
    && (k != [] ==> k[0] != '_' && k[|k| - 1] != '_')
  }

  /** The maximal runs of letters and digits. */
  function Words(s: string): (ws: seq<string>)
    ensures s != [] && IsAlnum(s[|s| - 1]) ==> ws != []
  {
    if s == [] then [] else
    var rest, c := s[..|s| - 1], s[|s| - 1];
    if !IsAlnum(c) then Words(rest)
    else if rest != [] && IsAlnum(rest[|rest| - 1]) then Extended(Words(rest), c)
    else Words(rest) + [[c]]
  }

  ghost predicate IsWord(w: string) { w != [] && forall i :: 0 <= i < |w| ==> IsAlnum(w[i]) }

  lemma {:induction false} WordsAreWords(s: string)
    ensures forall i :: 0 <= i < |Words(s)| ==> IsWord(Words(s)[i])
  {
    if s != [] {
      var rest, c := s[..|s| - 1], s[|s| - 1];
      WordsAreWords(rest);
      if IsAlnum(c) && rest != [] && IsAlnum(rest[|rest| - 1]) {
        ExtendedWords(Words(rest), c);
      }
    }
  }

  lemma ExtendedWords(ws: seq<string>, c: char)
    requires ws != [] && IsAlnum(c) && forall i :: 0 <= i < |ws| ==> IsWord(ws[i])
    ensures forall i :: 0 <= i < |ws| ==> IsWord(Extended(ws, c)[i])
  {
    assert forall i :: 0 <= i < |ws| - 1 ==> Extended(ws, c)[i] == ws[i];
  }

  predicate Leads(s: string) { s != [] && !IsAlnum(s[0]) }

  predicate Trails(s: string) { s != [] && !IsAlnum(s[|s| - 1]) }

  function Bar(b: bool): string { if b then ['_'] else [] }

  /** Some words joined by single underscores, with one before or after them where something stood there. */
  function Folded(lead: bool, ws: seq<string>, trail: bool): string {
    if ws == [] then Bar(lead) else Bar(lead) + Join(ws, '_') + Bar(trail)
  }

  lemma FoldedExtend(lead: bool, ws: seq<string>, c: char)
    requires ws != []
    ensures Folded(lead, Extended(ws, c), false) == Folded(lead, ws, false) + [c]
  {
    JoinExtended(ws, c, '_');
  }

  lemma FoldedNew(lead: bool, ws: seq<string>, c: char)
    ensures Folded(lead, ws + [[c]], false) == Folded(lead, ws, true) + [c]
  {
    if ws != [] {
      JoinSnoc(ws, [c], '_');
    }
  }

  /** Folding keeps the words and marks what stood before, between and after them. */
  lemma {:induction false} FoldIsWords(s: string)
    ensures Fold(s) == Folded(Leads(s), Words(s), Trails(s))
    ensures Words(s) == [] && s != [] ==> Leads(s) && Trails(s)
  {
    if s != [] {
      var rest, c := s[..|s| - 1], s[|s| - 1];
      FoldIsWords(rest);
      if IsAlnum(c) && rest != [] && IsAlnum(rest[|rest| - 1]) {
        FoldedExtend(Leads(rest), Words(rest), c);
      } else if IsAlnum(c) {
        FoldedNew(Leads(rest), Words(rest), c);
      }
    }
  }

  lemma TrimBars(k: string, lead: bool, trail: bool)
    requires k == [] || (k[0] != '_' && k[|k| - 1] != '_')
    requires k == [] ==> !trail
    ensures Trim(Bar(lead) + k + Bar(trail), c => c == '_') == k
  {
    var cut := c => c == '_';
    if lead {
      assert (Bar(lead) + k + Bar(trail))[1..] == k + Bar(trail);
    } else {
      assert Bar(lead) + k + Bar(trail) == k + Bar(trail);
    }
    if trail {
      assert (k + Bar(trail))[..|k|] == k;
    } else {
      assert k + Bar(trail) == k;
    }
    assert Trim(k + Bar(trail), cut) == k;
  }

  lemma {:induction false} JoinedEnds(ws: seq<string>)
    requires ws != [] && forall i :: 0 <= i < |ws| ==> IsWord(ws[i])
    ensures var k := Join(ws, '_'); k != [] && Normal(k)
  {
    if |ws| > 1 {
      var init := ws[..|ws| - 1];
      JoinedEnds(init);
    }
  }

  /** A key is the id's words joined by underscores. */
  lemma KeyIsWords(id: string)
    ensures NormaliseId(id) == Join(Words(ToUpper(id)), '_') && Normal(NormaliseId(id))
  {
    var s := ToUpper(id);
    FoldIsWords(s);
    WordsAreWords(s);
    if Words(s) == [] {
      TrimBars([], s != [], false);
      assert Bar(s != []) + [] + Bar(false) == Bar(s != []);
    } else {
      JoinedEnds(Words(s));
      TrimBars(Join(Words(s), '_'), Leads(s), Trails(s));
    }
  }

  /** Two ids share a key exactly when they have the same words. */
  lemma SameKeyExactly(a: string, b: string)
    ensures NormaliseId(a) == NormaliseId(b) <==> Words(ToUpper(a)) == Words(ToUpper(b))
  {
    var u, v := Words(ToUpper(a)), Words(ToUpper(b));
    KeyIsWords(a);
    KeyIsWords(b);
    WordsAreWords(ToUpper(a));
    WordsAreWords(ToUpper(b));
    if u != [] {
      JoinedEnds(u);
      SplitJoin(u, '_');
    }
    if v != [] {
      JoinedEnds(v);
      SplitJoin(v, '_');
    }
  }

  lemma {:induction false} NormalFoldsToItself(k: string)
    requires forall i :: 0 <= i < |k| ==> IsAlnum(k[i]) || k[i] == '_'
    requires forall i :: 0 <= i < |k| - 1 ==> k[i] != '_' || k[i + 1] != '_'
    ensures Fold(k) == k
  {
    if k != [] {
      NormalFoldsToItself(k[..|k| - 1]);
    }
  }

  /** Exactly the normal strings are their own keys; so normalising twice is normalising once. */
  lemma NormalExactly(k: string)
    ensures NormaliseId(k) == k <==> Normal(k)
    ensures NormaliseId(NormaliseId(k)) == NormaliseId(k)
  {
    if Normal(k) {
      FixedPoint(k);
    }
    KeyIsWords(k);
    FixedPoint(NormaliseId(k));
  }

  lemma FixedPoint(k: string)
    requires Normal(k)
    ensures NormaliseId(k) == k
  {
    assert ToUpper(k) == k;
    NormalFoldsToItself(k);
    TrimBars(k, false, false);
    assert Bar(false) + k + Bar(false) == k;
  }
}
