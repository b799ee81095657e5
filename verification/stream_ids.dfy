/**
 Stream ids as text: `<ms>-<seq>`, how they are split and compared.
 */
module StreamIds {
  import opened Prelude
  import opened Decimals

  const MAX_UINT64: int := 0xFFFF_FFFF_FFFF_FFFF
  const SEQ_SPAN: int := 0x1_0000_0000_0000_0000

  datatype Id = Id(ms: nat, seqNo: nat)

  // ---- decimal text ---------------------------------------------------------

  datatype Parsed = Value(n: nat) | Syntax | Range

  /**
   The digit loop of strconv.ParseUint with 64 bits: the first offence met, a bad character or an overflow, decides.
   */
  function ParseDigits(s: string, n: nat): Parsed {
    if s == [] then Value(n)
    else if !IsDigit(s[0]) then Syntax
    else if n * 10 + DigitValue(s[0]) > MAX_UINT64 then Range
    else ParseDigits(s[1..], n * 10 + DigitValue(s[0]))
  }

  /** The value strconv.ParseInt(s, 10, 64) returns, with its error dropped: 0 on bad syntax, clamped out of range. */
  function ParseInt(s: string): int {
    if s == [] then 0 else
    var body := if s[0] == '-' || s[0] == '+' then s[1..] else s;
    if body == [] then 0 else
    match ParseDigits(body, 0)
    case Syntax => 0
    case Range => if s[0] == '-' then -MAX_INT64 - 1 else MAX_INT64
    case Value(n) =>
      if s[0] == '-' then (if n > MAX_INT64 + 1 then -MAX_INT64 - 1 else 0 - n)
      else if n > MAX_INT64 then MAX_INT64 else n
  }

  lemma {:induction false} ParseIsBoundedFold(s: string, n: nat)
    requires AllDigits(s) && n <= MAX_UINT64
    ensures ParseDigits(s, n) == if Fold(s, n) > MAX_UINT64 then Range else Value(Fold(s, n))
  {
    if s != [] && n * 10 + DigitValue(s[0]) <= MAX_UINT64 {
      ParseIsBoundedFold(s[1..], n * 10 + DigitValue(s[0]));
    }
  }

  function Clamp(n: nat): nat { if n > MAX_INT64 then MAX_INT64 else n }

  /** Parsing undoes printing, up to the clamp at the top of int64. */
  lemma ParseDecimal(n: nat)
    ensures ParseInt(Decimal(n)) == Clamp(n)
  {
    var s := Decimal(n);
    FoldDecimal(n);
    ParseIsBoundedFold(s, 0);
    assert IsDigit(s[0]);
  }

  // ---- splitting ------------------------------------------------------------

  /** strings.Cut at the first dash. */
  function Cut(s: string): (r: (string, string, bool))
    ensures r.2 ==> s == r.0 + "-" + r.1
    ensures !r.2 ==> s == r.0 && r.1 == ""
    ensures '-' !in r.0
  {
    if s == [] then ("", "", false)
    else if s[0] == '-' then ("", s[1..], true)
    else var (a, b, found) := Cut(s[1..]); ([s[0]] + a, b, found)
  }

  lemma {:induction false} CutAtDash(a: string, b: string)
    requires '-' !in a
    ensures Cut(a + "-" + b) == (a, b, true)
  {
    var s := a + "-" + b;
    if a == [] {
      assert s[1..] == b;
    } else {
      assert s[1..] == a[1..] + "-" + b;
      CutAtDash(a[1..], b);
      assert s[0] == a[0] && [a[0]] + a[1..] == a;
    }
  }

  function SplitId(id: string): (r: (int, int)) {
    var (ms, seqNo, found) := Cut(id);
    (ParseInt(ms), if found then ParseInt(seqNo) else 0)
  }

  function Print(id: Id): string { Decimal(id.ms) + "-" + Decimal(id.seqNo) }

  /** splitID inverts printing below 2^63 - 1 and clamps each half above. */
  lemma SplitPrint(id: Id)
    ensures SplitId(Print(id)) == (Clamp(id.ms), Clamp(id.seqNo))
    ensures id.ms <= MAX_INT64 && id.seqNo <= MAX_INT64 ==> SplitId(Print(id)) == (id.ms, id.seqNo)
  {
    CutAtDash(Decimal(id.ms), Decimal(id.seqNo));
    ParseDecimal(id.ms);
    ParseDecimal(id.seqNo);
  }

  // ---- comparing ------------------------------------------------------------

  function Sign(a: int, b: int): int { if a < b then -1 else if a > b then 1 else 0 }

  function CompareIds(a: string, b: string): int {
    var (ams, aseq) := SplitId(a);
    var (bms, bseq) := SplitId(b);
    if ams != bms then (if ams < bms then -1 else 1)
    else if aseq != bseq then (if aseq < bseq then -1 else 1)
    else 0
  }

  /** The order Redis keeps entries in. */
  function Lex(a: Id, b: Id): int { if a.ms != b.ms then Sign(a.ms, b.ms) else Sign(a.seqNo, b.seqNo) }

  /** On any text, well formed or not, compareIDs is a total preorder. */
  lemma ComparePreorder(a: string, b: string, c: string)
    ensures CompareIds(a, a) == 0 && CompareIds(a, b) == -CompareIds(b, a)
    ensures CompareIds(a, b) <= 0 && CompareIds(b, c) <= 0 ==> CompareIds(a, c) <= 0
  {
  }

  /** When the clamp cannot change the answer: the deciding halves are not both at or above its limit. */
  predicate Comparable(a: Id, b: Id) {
    if a.ms == b.ms then a.seqNo == b.seqNo || a.seqNo < MAX_INT64 || b.seqNo < MAX_INT64
    else a.ms < MAX_INT64 || b.ms < MAX_INT64 || Sign(Clamp(a.seqNo), Clamp(b.seqNo)) == Sign(a.ms, b.ms)
  }

  lemma ComparePrinted(a: Id, b: Id)
    ensures CompareIds(Print(a), Print(b)) == Lex(Id(Clamp(a.ms), Clamp(a.seqNo)), Id(Clamp(b.ms), Clamp(b.seqNo)))
  {
    SplitPrint(a);
    SplitPrint(b);
  }

  lemma ClampedLex(a: Id, b: Id)
    ensures Lex(Id(Clamp(a.ms), Clamp(a.seqNo)), Id(Clamp(b.ms), Clamp(b.seqNo))) == Lex(a, b) <==> Comparable(a, b)
  {
  }

  /** compareIDs gives Redis's order exactly on the comparable pairs. */
  lemma CompareIsLexExactly(a: Id, b: Id)
    ensures CompareIds(Print(a), Print(b)) == Lex(a, b) <==> Comparable(a, b)
  {
    ComparePrinted(a, b);
    ClampedLex(a, b);
  }

  /** Above the clamp the order can even be reversed, although both ids fit Redis's 64-bit halves. */
  lemma ClampReversesOrder()
    ensures var a := Id(MAX_INT64 + 1, 5);
            var b := Id(MAX_INT64 + 2, 0);
            Lex(a, b) == -1 && CompareIds(Print(a), Print(b)) == 1
  {
    ComparePrinted(Id(MAX_INT64 + 1, 5), Id(MAX_INT64 + 2, 0));
  }

  /** `a` comes before `b`, but the clamp makes the deciding halves equal, or leaves the decision to the others. */
  predicate Hidden(a: Id, b: Id) {
    if a.ms == b.ms then MAX_INT64 <= a.seqNo < b.seqNo
    else MAX_INT64 <= a.ms < b.ms && Clamp(a.seqNo) >= Clamp(b.seqNo)
  }

  /** `a` comes after `b`, but the clamp makes it compare below. */
  predicate Reversed(a: Id, b: Id) { MAX_INT64 <= b.ms < a.ms && Clamp(a.seqNo) < Clamp(b.seqNo) }

  /** When compareIDs says below: exactly for ids that are, unless hidden, and for those reversed by the clamp. */
  lemma BelowExactly(a: Id, b: Id)
    ensures CompareIds(Print(a), Print(b)) < 0 <==> (Lex(a, b) < 0 && !Hidden(a, b)) || Reversed(a, b)
    ensures (Hidden(a, b) ==> Lex(a, b) < 0) && (Reversed(a, b) ==> Lex(a, b) > 0)
  {
    ComparePrinted(a, b);
  }

  /** Ids whose halves stay below the clamp, as all of this age do, are neither. */
  lemma OrdinaryIds(a: Id, b: Id)
    requires a.ms < MAX_INT64 && a.seqNo < MAX_INT64
    ensures !Hidden(a, b) && !Reversed(a, b)
  {
  }

  // ---- ranks ----------------------------------------------------------------

  /** The place of an id among all ids Redis can issue; module ConsumerGroup works with these. */
  function Rank(id: Id): nat { id.ms * SEQ_SPAN + id.seqNo }

  function OfRank(r: nat): (id: Id)
    ensures id.seqNo < SEQ_SPAN && Rank(id) == r
  {
    Id(r / SEQ_SPAN, r % SEQ_SPAN)
  }

  /** Ranks order ids as Redis does, and no two ids share one. */
  lemma RankIsLex(a: Id, b: Id)
    requires a.seqNo < SEQ_SPAN && b.seqNo < SEQ_SPAN
    ensures Sign(Rank(a), Rank(b)) == Lex(a, b)
    ensures Rank(a) == Rank(b) <==> a == b
  {
  }
}
