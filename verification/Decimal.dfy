// Decimal text of numbers, as JavaScript's String(n) and padStart(w, '0') write it.
module Decimal {
  import opened Wrappers

  predicate IsDigit(c: char) {
    '0' <= c <= '9'
  }

  predicate AllDigits(s: string) {
    forall i :: 0 <= i < |s| ==> IsDigit(s[i])
  }

  function Digit(d: nat): char
    requires d < 10
  {
    ('0' as int + d) as char
  }

  function Print(n: nat): (s: string)
    ensures |s| > 0 && AllDigits(s)
  {
    if n < 10 then [Digit(n)] else Print(n / 10) + [Digit(n % 10)]
  }

  /** String(i) for an integer: a minus sign before the digits of a negative one. */
  function PrintInt(i: int): string {
    if i < 0 then "-" + Print(-i) else Print(i)
  }

  /** Only a negative number has a sign, and zero none. */
  lemma SignIff(i: int)
    ensures PrintInt(i) != "" && (PrintInt(i)[0] == '-' <==> i < 0)
    ensures i >= 0 ==> PrintInt(i) == Print(i)
    ensures i < 0 ==> PrintInt(i)[1..] == Print(-i)
  {
    assert IsDigit(Print(if i < 0 then -i else i)[0]);
  }

  function Zeros(k: nat): (s: string)
    ensures |s| == k && AllDigits(s)
  {
    seq(k, i => '0')
  }

  /** s.padStart(w, '0') */
  function PadStart(s: string, w: nat): (r: string)
    ensures |r| == if |s| < w then w else |s|
    ensures AllDigits(s) ==> AllDigits(r)
  {
    if |s| < w then Zeros(w - |s|) + s else s
  }

  function Value(s: string): nat
    requires AllDigits(s)
  {
    if s == [] then 0 else Value(s[..|s| - 1]) * 10 + (s[|s| - 1] as int - '0' as int)
  }

  function Pow10(w: nat): nat {
    if w == 0 then 1 else 10 * Pow10(w - 1)
  }

  /** Length of the longest prefix of digits. */
  function DigitRun(s: string): (k: nat)
    ensures k <= |s| && AllDigits(s[..k])
    ensures k == |s| || !IsDigit(s[k])
  {
    if s == [] || !IsDigit(s[0]) then 0
    else
      var k := DigitRun(s[1..]);
      assert forall i :: 0 <= i < k ==> s[..1 + k][1 + i] == s[1..][..k][i];
      1 + k
  }

  /** Reads an unsigned number at the front of s. */
  function ReadNat(s: string): (r: Option<(nat, string)>)
    ensures r.Some? ==> |r.value.1| < |s|
  {
    var k := DigitRun(s);
    if k == 0 then None else Some((Value(s[..k]), s[k..]))
  }

  lemma {:induction false} ValueOfPrint(n: nat)
    ensures Value(Print(n)) == n
  {
    if n >= 10 {
      ValueOfPrint(n / 10);
      assert Print(n)[..|Print(n)| - 1] == Print(n / 10);
    }
  }

  lemma {:induction false} ValueOfZeros(k: nat, s: string)
    requires AllDigits(s)
    ensures Value(Zeros(k) + s) == Value(s)
  {
    if s == [] {
      if k > 0 {
        ValueOfZeros(k - 1, s);
        assert (Zeros(k) + s)[..k - 1] == Zeros(k - 1) + s;
      }
    } else {
      var t := s[..|s| - 1];
      ValueOfZeros(k, t);
      assert (Zeros(k) + s)[..k + |s| - 1] == Zeros(k) + t;
    }
  }

  /** Padding changes the text but not the number it denotes. */
  lemma ValueOfPad(n: nat, w: nat)
    ensures Value(PadStart(Print(n), w)) == n
  {
    ValueOfPrint(n);
    if |Print(n)| < w {
      ValueOfZeros(w - |Print(n)|, Print(n));
    }
  }

  lemma PadInjective(m: nat, n: nat, w: nat)
    requires PadStart(Print(m), w) == PadStart(Print(n), w)
    ensures m == n
  {
    ValueOfPad(m, w);
    ValueOfPad(n, w);
  }

  /** A number fits in w digits exactly when it is below 10^w. */
  lemma {:induction false} PrintFits(n: nat, w: nat)
    requires w > 0
    ensures |Print(n)| <= w <==> n < Pow10(w)
  {
    if n < 10 {
      Pow10Grows(w);
    } else if w > 1 {
      PrintFits(n / 10, w - 1);
    } else {
      assert |Print(n)| == |Print(n / 10)| + 1;
      assert Pow10(1) == 10 * Pow10(0);
    }
  }

  lemma {:induction false} Pow10Grows(w: nat)
    requires w > 0
    ensures Pow10(w) >= 10
  {
    if w > 1 {
      Pow10Grows(w - 1);
    }
  }

  lemma DigitRunOf(d: string, rest: string)
    requires AllDigits(d)
    requires rest == [] || !IsDigit(rest[0])
    ensures DigitRun(d + rest) == |d|
  {
    var s := d + rest;
    var k := DigitRun(s);
    assert forall i :: 0 <= i < |d| ==> s[i] == d[i];
    assert rest != [] ==> s[|d|] == rest[0];
    assert forall i :: 0 <= i < k ==> IsDigit(s[i]) by {
      assert forall i :: 0 <= i < k ==> s[..k][i] == s[i];
    }
  }

  /** Digits followed by something else are read back as the number they denote. */
  lemma ReadDigits(d: string, rest: string)
    requires d != [] && AllDigits(d)
    requires rest == [] || !IsDigit(rest[0])
    ensures ReadNat(d + rest) == Some((Value(d), rest))
  {
    DigitRunOf(d, rest);
    assert (d + rest)[..|d|] == d;
    assert (d + rest)[|d|..] == rest;
  }

  lemma ReadPrinted(n: nat, rest: string)
    requires rest == [] || !IsDigit(rest[0])
    ensures ReadNat(Print(n) + rest) == Some((n, rest))
  {
    ValueOfPrint(n);
    ReadDigits(Print(n), rest);
  }
}
