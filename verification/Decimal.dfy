/** Decimal numerals as the program prints and parses them. */
module Decimal {
  import opened Prelude

  predicate IsDigit(c: char) { '0' <= c <= '9' }

  predicate AllDigits(s: string) { forall i :: 0 <= i < |s| ==> IsDigit(s[i]) }

  function DigitChar(d: nat): (c: char)
    requires d < 10
    ensures IsDigit(c) && DigitValue(c) == d
  {
    '0' + d as char
  }

  function DigitValue(c: char): (d: nat)
    requires IsDigit(c)
    ensures d < 10
  {
    (c - '0') as nat
  }

  /** The numeral without leading zeros. */
  function Print(n: nat): (s: string)
    ensures |s| > 0 && AllDigits(s)
  {
    if n < 10 then [DigitChar(n)] else Print(n / 10) + [DigitChar(n % 10)]
  }

  function Value(s: string): nat
    requires AllDigits(s)
  {
    if s == "" then 0 else 10 * Value(s[..|s| - 1]) + DigitValue(s[|s| - 1])
  }

  /** `padStart(width, "0")`. */
  function PadStart(s: string, width: nat): (r: string)
    ensures |r| == if |s| >= width then |s| else width
    ensures AllDigits(s) ==> AllDigits(r)
    decreases width - |s|
  {
    if |s| >= width then s else PadStart("0" + s, width)
  }

  function Padded(n: nat, width: nat): (s: string)
    ensures |s| > 0 && AllDigits(s) && |s| >= width
  {
    PadStart(Print(n), width)
  }

  function LeadingDigits(s: string): (k: nat)
    ensures k <= |s| && AllDigits(s[..k])
    ensures k < |s| ==> !IsDigit(s[k])
  {
    if s == "" || !IsDigit(s[0]) then 0 else 1 + LeadingDigits(s[1..])
  }

  function TrimStart(s: string): string {
    if s != "" && IsSpace(s[0]) then TrimStart(s[1..]) else s
  }

  function ParseUnsigned(s: string): Option<int> {
    var k := LeadingDigits(s);
    if k == 0 then None else Some(Value(s[..k]))
  }

  /** `parseInt(s, 10)`: white space, an optional sign, the longest run of digits; None is NaN. */
  function ParseInt(s: string): Option<int> {
    var t := TrimStart(s);
    if t != "" && t[0] == '+' then ParseUnsigned(t[1..])
    else if t != "" && t[0] == '-' then
      var r := ParseUnsigned(t[1..]);
      if r.None? then None else Some(-r.value)
    else ParseUnsigned(t)
  }

  lemma {:induction false} ValueOfPrint(n: nat)
    ensures Value(Print(n)) == n
  {
    if n >= 10 {
      ValueOfPrint(n / 10);
      assert Print(n)[..|Print(n)| - 1] == Print(n / 10);
    }
  }

  lemma {:induction false} ValueOfZeroPrefix(s: string)
    requires AllDigits(s)
    ensures Value("0" + s) == Value(s)
  {
    if s == "" {
      assert ("0" + s)[..0] == "";
    } else {
      ValueOfZeroPrefix(s[..|s| - 1]);
      assert ("0" + s)[..|s|] == "0" + s[..|s| - 1];
    }
  }

  lemma {:induction false} ValueOfPadStart(s: string, width: nat)
    requires AllDigits(s)
    ensures Value(PadStart(s, width)) == Value(s)
    decreases width - |s|
  {
    if |s| < width {
      ValueOfPadStart("0" + s, width);
      ValueOfZeroPrefix(s);
    }
  }

  lemma ParseDigits(s: string)
    requires s != "" && AllDigits(s)
    ensures ParseInt(s) == Some(Value(s))
  {
    assert IsDigit(s[0]);
    assert LeadingDigits(s) == |s|;
    assert s[..|s|] == s;
  }

  /** Parsing a printed number, padded or not, gives it back. */
  lemma ParsePadded(n: nat, width: nat)
    ensures ParseInt(Padded(n, width)) == Some(n)
    ensures Value(Padded(n, width)) == n
  {
    ValueOfPrint(n);
    ValueOfPadStart(Print(n), width);
    ParseDigits(Padded(n, width));
  }

  lemma PaddedIsInjective(n: nat, m: nat, width: nat)
    requires Padded(n, width) == Padded(m, width)
    ensures n == m
  {
    ParsePadded(n, width);
    ParsePadded(m, width);
  }

  function Pow10(k: nat): (p: nat)
    ensures p >= 1
  {
    if k == 0 then 1 else 10 * Pow10(k - 1)
  }

  lemma {:induction false} ValueBound(s: string)
    requires AllDigits(s)
    ensures Value(s) < Pow10(|s|)
  {
    if s != "" { ValueBound(s[..|s| - 1]); }
  }

  /** A number has as many digits as its size says. */
  lemma {:induction false} PrintLength(n: nat, k: nat)
    requires k >= 1
    ensures |Print(n)| <= k <==> n < Pow10(k)
    decreases k
  {
    if k == 1 {
      assert Pow10(1) == 10 * Pow10(0) == 10;
    } else if n >= 10 {
      PrintLength(n / 10, k - 1);
      assert Pow10(k) == 10 * Pow10(k - 1);
    } else {
      PrintLength(n, k - 1);
      assert Pow10(k) == 10 * Pow10(k - 1);
    }
  }

  function PrintInt(n: int): string { if n < 0 then "-" + Print(-n) else Print(n) }

  /* ── String order and numeric order ─────────────────────────────────── */

  /** Character-by-character order; a proper prefix comes first. */
  predicate Less(a: string, b: string) {
    if b == "" then false
    else if a == "" then true
    else a[0] < b[0] || (a[0] == b[0] && Less(a[1..], b[1..]))
  }

  lemma {:induction false} LessIsTransitive(a: string, b: string, c: string)
    requires Less(a, b) && Less(b, c)
    ensures Less(a, c)
  {
    if a != "" && a[0] == b[0] == c[0] { LessIsTransitive(a[1..], b[1..], c[1..]); }
  }

  lemma {:induction false} LessIsTotal(a: string, b: string)
    ensures Less(a, b) || a == b || Less(b, a)
    ensures !(Less(a, b) && Less(b, a)) && !Less(a, a)
  {
    if a != "" && b != "" {
      LessIsTotal(a[1..], b[1..]);
      if a[1..] == b[1..] && a[0] == b[0] { assert a == [a[0]] + a[1..] == b; }
    }
    if a != "" { LessIsTotal(a[1..], a[1..]); }
  }

  lemma {:induction false} LessAfterPrefix(prefix: string, a: string, b: string)
    ensures Less(prefix + a, prefix + b) <==> Less(a, b)
  {
    if prefix == "" {
      assert prefix + a == a && prefix + b == b;
    } else {
      LessAfterPrefix(prefix[1..], a, b);
      assert (prefix + a)[1..] == prefix[1..] + a && (prefix + b)[1..] == prefix[1..] + b;
    }
  }

  lemma Regroup(d: nat, p: nat, v: nat, x: nat)
    ensures 10 * (d * p + v) + x == d * (10 * p) + (10 * v + x)
  {
  }

  lemma {:induction false} ValueFromFront(s: string)
    requires s != "" && AllDigits(s)
    ensures Value(s) == DigitValue(s[0]) * Pow10(|s| - 1) + Value(s[1..])
  {
    if |s| == 1 {
      assert s[..0] == "" && s[1..] == "";
    } else {
      var init, tail, last := s[..|s| - 1], s[1..], s[|s| - 1];
      ValueFromFront(init);
      assert init[1..] == tail[..|tail| - 1] && tail[|tail| - 1] == last;
      var v := Value(init[1..]);
      assert Value(tail) == 10 * v + DigitValue(last);
      Regroup(DigitValue(s[0]), Pow10(|s| - 2), v, DigitValue(last));
    }
  }

  lemma LeadingDigitDecides(a: nat, b: nat, p: nat, x: nat, y: nat)
    requires x < p && y < p
    ensures a * p + x < b * p + y <==> a < b || (a == b && x < y)
  {
    if a < b {
      assert a * p + p == (a + 1) * p <= b * p;
    } else if b < a {
      assert b * p + p == (b + 1) * p <= a * p;
    }
  }

  /** On numerals of one length, string order is numeric order. */
  lemma {:induction false} LessIsNumeric(s: string, t: string)
    requires |s| == |t| && AllDigits(s) && AllDigits(t)
    ensures Less(s, t) <==> Value(s) < Value(t)
  {
    if s != "" {
      LessIsNumeric(s[1..], t[1..]);
      ValueFromFront(s);
      ValueFromFront(t);
      ValueBound(s[1..]);
      ValueBound(t[1..]);
      LeadingDigitDecides(DigitValue(s[0]), DigitValue(t[0]), Pow10(|s| - 1), Value(s[1..]), Value(t[1..]));
    }
  }

  /** Strings that already differ within one length compare so whatever follows. */
  lemma {:induction false} LessExtends(a: string, b: string, x: string, y: string)
    requires |a| == |b| && Less(a, b)
    ensures Less(a + x, b + y)
  {
    assert (a + x)[0] == a[0] && (b + y)[0] == b[0];
    if a[0] == b[0] {
      LessExtends(a[1..], b[1..], x, y);
      assert (a + x)[1..] == a[1..] + x && (b + y)[1..] == b[1..] + y;
    }
  }

  predicate AllNines(s: string) { forall i :: 0 <= i < |s| ==> s[i] == '9' }

  lemma {:induction false} NinesAreGreatest(s: string)
    requires AllDigits(s)
    ensures Value(s) + 1 == Pow10(|s|) <==> AllNines(s)
  {
    if s != "" {
      var init, last := s[..|s| - 1], s[|s| - 1];
      NinesAreGreatest(init);
      ValueBound(init);
      assert Pow10(|s|) == 10 * Pow10(|s| - 1);
      assert AllNines(s) <==> AllNines(init) && last == '9';
    }
  }

  /** A padded number gets one digit longer exactly after all nines. */
  lemma GrowsExactlyAfterNines(n: nat, width: nat)
    requires width >= 1
    ensures |Padded(n, width)| <= |Padded(n + 1, width)|
    ensures |Padded(n + 1, width)| != |Padded(n, width)| <==> AllNines(Padded(n, width))
  {
    var s, k := Padded(n, width), |Padded(n, width)|;
    ParsePadded(n, width);
    ValueBound(s);
    NinesAreGreatest(s);
    PrintLength(n + 1, k);
    if k > 1 {
      PrintLength(n, k - 1);
      PrintLength(n + 1, k - 1);
    }
  }
}
