/**
 Decimal text: digits, numbers written with them, and read back.
 */
module Decimals {

  predicate IsDigit(c: char) { '0' <= c <= '9' }

  function Digit(d: nat): (c: char)
    requires d < 10
    ensures IsDigit(c) && DigitValue(c) == d
  {
    '0' + d as char
  }

  function DigitValue(c: char): (d: nat)
    requires IsDigit(c)
    ensures d < 10
  {
    (c - '0') as nat
  }

  predicate AllDigits(s: string) { forall i :: 0 <= i < |s| ==> IsDigit(s[i]) }

  function Decimal(n: nat): (s: string)
    ensures s != [] && AllDigits(s)
  {
    if n < 10 then [Digit(n)] else Decimal(n / 10) + [Digit(n % 10)]
  }

  /** The value of a digit string, after a number already read. */
  function Fold(s: string, n: nat): (r: nat)
    requires AllDigits(s)
    ensures r >= n
  {
    if s == [] then n else Fold(s[1..], n * 10 + DigitValue(s[0]))
  }

  lemma {:induction false} FoldSnoc(s: string, c: char, n: nat)
    requires IsDigit(c) && AllDigits(s)
    ensures Fold(s + [c], n) == Fold(s, n) * 10 + DigitValue(c)
  {
    if s == [] {
      assert s + [c] == [c] && [c][1..] == [];
    } else {
      assert (s + [c])[1..] == s[1..] + [c];
      FoldSnoc(s[1..], c, n * 10 + DigitValue(s[0]));
    }
  }

  lemma {:induction false} FoldDecimal(n: nat)
    ensures Fold(Decimal(n), 0) == n
  {
    if n < 10 {
      assert [Digit(n)][1..] == [];
    } else {
      FoldDecimal(n / 10);
      FoldSnoc(Decimal(n / 10), Digit(n % 10), 0);
    }
  }

  // ---- with leading zeros ---------------------------------------------------------

  function Zeros(k: nat): (s: string)
    ensures |s| == k && AllDigits(s)
  {
    if k == 0 then [] else ['0'] + Zeros(k - 1)
  }

  /** The decimal text of a number, filled up with zeros to a width. */
  function Pad(n: nat, width: nat): (s: string)
    ensures |s| >= width && s != [] && AllDigits(s)
  {
    var s := Decimal(n);
    if |s| < width then Zeros(width - |s|) + s else s
  }

  lemma {:induction false} FoldZeros(k: nat, s: string)
    requires AllDigits(s)
    ensures AllDigits(Zeros(k) + s) && Fold(Zeros(k) + s, 0) == Fold(s, 0)
  {
    if k == 0 {
      assert Zeros(k) + s == s;
    } else {
      FoldZeros(k - 1, s);
      assert (Zeros(k) + s)[1..] == Zeros(k - 1) + s && (Zeros(k) + s)[0] == '0';
      assert DigitValue('0') == 0;
    }
  }

  /** Padding does not change the value. */
  lemma FoldPad(n: nat, width: nat)
    ensures Fold(Pad(n, width), 0) == n
  {
    FoldDecimal(n);
    var s := Decimal(n);
    if |s| < width {
      FoldZeros(width - |s|, s);
    }
  }
}
