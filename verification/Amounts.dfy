// Amounts between decimal text and integers of the smallest unit, by string operations only.
module Amounts {
  import opened Types

  const ZEROS: nat := 40
  const MAX_EXPANDED_DIGITS: nat := 1024

  // ---------------------------------------------------------------- digits

  predicate IsDigit(c: char) { '0' <= c <= '9' }

  predicate IsDigits(s: string) { forall i :: 0 <= i < |s| ==> IsDigit(s[i]) }

  function DigitsValue(s: string): nat
    requires IsDigits(s)
  {
    if s == [] then 0 else DigitsValue(s[..|s| - 1]) * 10 + DigitValue(s[|s| - 1])
  }

  function DigitValue(c: char): (n: nat)
    requires IsDigit(c)
    ensures n < 10
  {
    (c - '0') as nat
  }

  function Pow10(n: nat): (r: nat)
    ensures r > 0
  {
    if n == 0 then 1 else 10 * Pow10(n - 1)
  }

  function Repeat0(n: nat): (s: string)
    ensures |s| == n && IsDigits(s) && forall i :: 0 <= i < n ==> s[i] == '0'
  {
    if n == 0 then "" else Repeat0(n - 1) + "0"
  }

  lemma {:induction false} DigitsJoin(a: string, b: string)
    requires IsDigits(a) && IsDigits(b)
    ensures IsDigits(a + b) && DigitsValue(a + b) == DigitsValue(a) * Pow10(|b|) + DigitsValue(b)
  {
    if b == [] {
      assert a + b == a;
    } else {
      var n := |b| - 1;
      DigitsJoin(a, b[..n]);
      assert (a + b)[..|a + b| - 1] == a + b[..n];
      Times10(DigitsValue(a), Pow10(n));
    }
  }

  lemma Times10(x: nat, p: nat)
    ensures x * (10 * p) == x * p * 10
  {
  }

  lemma {:induction false} ZerosValue(n: nat)
    ensures DigitsValue(Repeat0(n)) == 0
  {
    if n > 0 {
      ZerosValue(n - 1);
      assert Repeat0(n)[..n - 1] == Repeat0(n - 1);
    }
  }

  lemma {:induction false} DigitsBound(s: string)
    requires IsDigits(s)
    ensures DigitsValue(s) < Pow10(|s|)
  {
    if s != [] { DigitsBound(s[..|s| - 1]); }
  }

  // ---------------------------------------------------------------- integers as text

  /** a.String() of a natural */
  function Decimal(n: nat): (s: string)
    ensures |s| > 0 && IsDigits(s)
  {
    if n < 10 then [('0' as int + n) as char] else Decimal(n / 10) + [('0' as int + n % 10) as char]
  }

  lemma {:induction false} DecimalRead(n: nat)
    ensures DigitsValue(Decimal(n)) == n
  {
    if n >= 10 {
      DecimalRead(n / 10);
      var s := Decimal(n);
      assert s[..|s| - 1] == Decimal(n / 10);
    } else {
      assert Decimal(n)[..0] == [];
    }
  }

  /** SetString(s, 10): an optional sign and at least one digit. */
  function ParseInt(s: string): Option<int> {
    if s != [] && s[0] == '-' then (if |s| > 1 && IsDigits(s[1..]) then Some(0 - DigitsValue(s[1..])) else None)
    else
      var t := if s != [] && s[0] == '+' then s[1..] else s;
      if t != [] && IsDigits(t) then Some(DigitsValue(t)) else None
  }

  function SignText(neg: bool, plus: bool): string { if neg then "-" else if plus then "+" else "" }

  function Signed(neg: bool, n: nat): int { if neg then 0 - n else n }

  lemma SignedRead(neg: bool, plus: bool, digits: string)
    requires IsDigits(digits)
    ensures ParseInt(SignText(neg, plus) + digits) == if digits == []
            then None else Some(Signed(neg, DigitsValue(digits)))
  {
    var s := SignText(neg, plus) + digits;
    if neg || plus {
      assert s[1..] == digits;
    } else {
      assert s == digits;
    }
  }

  // ---------------------------------------------------------------- searching text

  function IndexOf(s: string, c: char, i: nat): (r: int)
    requires i <= |s|
    ensures r == -1 || i <= r < |s|
    ensures r == -1 ==> forall k :: i <= k < |s| ==> s[k] != c
    ensures r >= 0 ==> s[r] == c && forall k :: i <= k < r ==> s[k] != c
    decreases |s| - i
  {
    if i == |s| then -1 else if s[i] == c then i else IndexOf(s, c, i + 1)
  }

  predicate IsE(c: char) { c == 'e' || c == 'E' }

  function IndexOfE(s: string, i: nat): (r: int)
    requires i <= |s|
    ensures r == -1 || i <= r < |s|
    ensures r == -1 ==> forall k :: i <= k < |s| ==> !IsE(s[k])
    ensures r >= 0 ==> IsE(s[r]) && forall k :: i <= k < r ==> !IsE(s[k])
    decreases |s| - i
  {
    if i == |s| then -1 else if IsE(s[i]) then i else IndexOfE(s, i + 1)
  }

  // ---------------------------------------------------------------- parsing

  /** normalizePlainAmountToIntString */
  function Plain(s: string, d: nat): string {
    var i := IndexOf(s, '.', 0);
    if i == -1 then s + Repeat0(d)
    else
      var z := d - |s| + i + 1;
      if z > 0 then s[..i] + s[i + 1..] + Repeat0(z) else s[..i] + s[i + 1..|s| + z]
  }

  function TrimLeft0(s: string): string {
    if s != [] && s[0] == '0' then TrimLeft0(s[1..]) else s
  }

  predicate IsSpace(c: char) { c == ' ' || '\t' <= c <= '\r' || c == '\U{85}' || c == '\U{A0}' }

  function TrimSpace(s: string): string {
    if s == [] then s else if IsSpace(s[0]) then TrimSpace(s[1..]) else if IsSpace(s[|s| - 1])
        then TrimSpace(s[..|s| - 1]) else s
  }

  /** The range of an int on a 64-bit machine. */
  predicate InInt64(x: int) { -0x8000_0000_0000_0000 <= x < 0x8000_0000_0000_0000 }

  /** An int keeps the low 64 bits. */
  function Wrap64(x: int): (r: int)
    ensures InInt64(r) && (InInt64(x) ==> r == x)
  {
    (x + 0x8000_0000_0000_0000) % 0x1_0000_0000_0000_0000 - 0x8000_0000_0000_0000
  }

  /** strconv.Atoi */
  function Atoi(s: string): Option<int> {
    var r := ParseInt(s);
    if r.Some? && InInt64(r.value) then r else None
  }

  /** The mantissa as digits and the number of them behind the point. */
  function Mantissa(s: string): Option<(string, nat)> {
    var i := IndexOf(s, '.', 0);
    var digits := if i == -1 then s else s[..i] + s[i + 1..];
    if i != -1 && IndexOf(s[i + 1..], '.', 0) != -1 then None
    else if digits == [] || !IsDigits(digits) then None
    else Some((digits, if i == -1 then 0 else |s| - i - 1))
  }

  /** Digits with the decimal point moved to the right by `shift`; None when they would be too many. */
  function Shifted(digits: string, shift: int): Option<string> {
    var s := TrimLeft0(digits);
    if s == [] then Some("0")
    else if shift >= 0 then
      (if shift > MAX_EXPANDED_DIGITS || |s| > MAX_EXPANDED_DIGITS - shift then None else Some(s + Repeat0(shift)))
    else if |s| + shift > 0 then Some(s[..|s| + shift]) else Some("0")
  }

  /** Mantissa and exponent without sign. */
  function Unsigned(s: string, d: nat): Option<string> {
    var i := IndexOfE(s, 0);
    if i == -1 then WithExponent(s, 0, d)
    else if IndexOfE(s[i + 1..], 0) != -1 || Atoi(s[i + 1..]).None? then None
    else WithExponent(s[..i], Atoi(s[i + 1..]).value, d)
  }

  function WithExponent(mantissa: string, exponent: int, d: nat): Option<string> {
    var m := Mantissa(mantissa);
    if m.None? then None else Shifted(m.value.0, Wrap64(exponent - m.value.1 + d))
  }

  /** normalizeScientificAmountToIntString */
  function Scientific(text: string, d: nat): Option<string> {
    var s := if TrimSpace(text) == [] then "0" else TrimSpace(text);
    if s[0] == '-' then
      var r := Unsigned(s[1..], d);
      if r.Some? && r.value != "0" then Some("-" + r.value) else r
    else Unsigned(if s[0] == '+' then s[1..] else s, d)
  }

  function ClipDecimals(d: int): nat { if d < 0 then 0 else if d > ZEROS then ZEROS else d }

  /** AmountToBigInt */
  function Parse(s: string, decimals: int): Option<int> {
    var d := ClipDecimals(decimals);
    if IndexOfE(s, 0) == -1 then ParseInt(Plain(s, d))
    else
      var t := Scientific(s, d);
      if t.None? then None else ParseInt(t.value)
  }

  // ---------------------------------------------------------------- printing

  function TrimRight0(s: string): string {
    if s != [] && s[|s| - 1] == '0' then TrimRight0(s[..|s| - 1]) else s
  }

  /** AmountToDecimalString */
  function Print(a: int, decimals: nat): string {
    var sign := if a < 0 then "-" else "";
    var n := Decimal(if a < 0 then -a else a);
    var d := if decimals > ZEROS then ZEROS else decimals;
    var n := if |n| <= d then Repeat0(d - |n| + 1) + n else n;
    var i := |n| - d;
    var ad := TrimRight0(n[i..]);
    sign + (if |ad| > 0 then n[..i] + "." + ad else n[..i])
  }

  // ---------------------------------------------------------------- powers of ten

  lemma {:induction false} Pow10Add(a: nat, b: nat)
    ensures Pow10(a + b) == Pow10(a) * Pow10(b)
  {
    if a > 0 {
      Pow10Add(a - 1, b);
      Times10(Pow10(b), Pow10(a - 1));
    }
  }

  /** n * 10^k, rounded down. */
  function Moved(n: nat, k: int): nat {
    if k >= 0 then Product(n, Pow10(k)) else Quotient(n, Pow10(-k))
  }

  function Product(x: nat, y: nat): (r: nat)
    ensures r == x * y
  {
    NotNegative(x, y);
    x * y
  }

  function Quotient(x: nat, y: nat): (r: nat)
    requires y > 0
    ensures r == x / y
  {
    x / y
  }

  lemma NotNegative(x: nat, y: nat)
    ensures x * y >= 0
  {
  }

  lemma DivExact(q: nat, p: nat, r: nat)
    requires r < p
    ensures (q * p + r) / p == q
  {
    var x := q * p + r;
    var y, m := x / p, x % p;
    assert x == y * p + m;
    if y > q { MulStep(q, y, p); }
    if y < q { MulStep(y, q, p); }
  }

  lemma MulStep(a: nat, b: nat, p: nat)
    requires a < b
    ensures a * p + p <= b * p
  {
    Distribute(a, b - a, p);
    MulGe(b - a, p);
  }

  lemma Distribute(a: nat, k: nat, p: nat)
    ensures (a + k) * p == a * p + k * p
  {
  }

  lemma MulGe(k: nat, p: nat)
    requires k >= 1
    ensures k * p >= p
  {
  }

  /** Dropping digits from the end divides. */
  lemma DigitsPrefix(x: string, y: string)
    requires IsDigits(x) && IsDigits(y)
    ensures IsDigits(x + y) && DigitsValue(x) == DigitsValue(x + y) / Pow10(|y|)
  {
    DigitsJoin(x, y);
    DigitsBound(y);
    DivExact(DigitsValue(x), Pow10(|y|), DigitsValue(y));
  }

  lemma DigitsExtended(x: string, z: nat)
    requires IsDigits(x)
    ensures IsDigits(x + Repeat0(z)) && DigitsValue(x + Repeat0(z)) == DigitsValue(x) * Pow10(z)
  {
    DigitsJoin(x, Repeat0(z));
    ZerosValue(z);
  }

  // ---------------------------------------------------------------- plain numerals

  function PointText(f: Option<string>): string { if f.None? then "" else "." + f.value }

  function Frac(f: Option<string>): string { if f.None? then "" else f.value }

  /** The digits a plain numeral is turned into. */
  function Scaled(i: string, f: Option<string>, d: nat): string {
    if |Frac(f)| <= d then i + Frac(f) + Repeat0(d - |Frac(f)|) else i + Frac(f)[..d]
  }

  lemma ScaledValue(i: string, f: Option<string>, d: nat)
    requires IsDigits(i) && IsDigits(Frac(f))
    ensures IsDigits(i + Frac(f)) && IsDigits(Scaled(i, f, d))
    ensures DigitsValue(Scaled(i, f, d)) == Moved(DigitsValue(i + Frac(f)), d - |Frac(f)|)
  {
    hide DigitsValue, Pow10, Repeat0, IsDigits;
    var y := Frac(f);
    DigitsJoin(i, y);
    if |y| <= d {
      DigitsExtended(i + y, d - |y|);
    } else {
      Cut(y, d);
      DigitsJoin(i, y[..d]);
      DigitsPrefix(i + y[..d], y[d..]);
      assert i + y[..d] + y[d..] == i + y;
    }
  }

  /** A text in three parts, of which only the last one may hold a point, and that at its start. */
  lemma PartsText(g: string, i: string, t: string)
    requires forall k :: 0 <= k < |g| ==> !IsE(g[k]) && g[k] != '.'
    requires forall k :: 0 <= k < |i| ==> !IsE(i[k]) && i[k] != '.'
    requires forall k :: 0 <= k < |t| ==> !IsE(t[k]) && (k == 0 <==> t[k] == '.')
    ensures var s := g + i + t;
            && IndexOfE(s, 0) == -1 && IndexOf(s, '.', 0) == (if t == [] then -1 else |g| + |i|)
            && (t != [] ==> s[..|g| + |i|] == g + i && s[|g| + |i| + 1..] == t[1..])
  {
    hide IsE, IndexOf, IndexOfE;
    var s := g + i + t;
    forall k | 0 <= k < |s| ensures !IsE(s[k]) && (s[k] == '.' <==> k == |g| + |i|) {
      if k < |g| {
        assert s[k] == g[k];
      } else if k < |g| + |i| {
        assert s[k] == i[k - |g|];
      } else {
        assert s[k] == t[k - |g| - |i|];
      }
    }
    var r := IndexOf(s, '.', 0);
    assert t != [] ==> s[|g| + |i|] == '.';
  }

  lemma DigitChars(i: string)
    requires IsDigits(i)
    ensures forall k :: 0 <= k < |i| ==> !IsE(i[k]) && i[k] != '.'
  {
    forall k | 0 <= k < |i| ensures !IsE(i[k]) && i[k] != '.' { assert IsDigit(i[k]); }
  }

  lemma SignChars(neg: bool, plus: bool)
    ensures var g := SignText(neg, plus); forall k :: 0 <= k < |g| ==> !IsE(g[k]) && g[k] != '.'
  {
  }

  lemma PointChars(f: Option<string>)
    requires IsDigits(Frac(f))
    ensures var t := PointText(f);
            && (forall k :: 0 <= k < |t| ==> !IsE(t[k]) && (k == 0 <==> t[k] == '.'))
            && (t == [] <==> f.None?) && (f.Some? ==> t[1..] == f.value)
  {
    hide IsDigits, IsE;
    if f.Some? {
      DigitChars(f.value);
      var t := PointText(f);
      PointMark();
      forall k | 0 <= k < |t| ensures !IsE(t[k]) && (k == 0 <==> t[k] == '.') {
        if k > 0 { assert t[k] == f.value[k - 1]; }
      }
    }
  }

  lemma PointMark()
    ensures !IsE('.')
  {
  }

  /** Sign, digits and point hold no exponent mark, and the point is where it was put. */
  lemma NumeralText(neg: bool, plus: bool, i: string, f: Option<string>)
    requires IsDigits(i) && IsDigits(Frac(f))
    ensures var g := SignText(neg, plus);
            var s := g + i + PointText(f);
            && IndexOfE(s, 0) == -1 && IndexOf(s, '.', 0) == (if f.None? then -1 else |g| + |i|)
            && (f.Some? ==> s[..|g| + |i|] == g + i && s[|g| + |i| + 1..] == f.value)
  {
    hide IsDigits, IsE, SignText, PointText, IndexOf, IndexOfE;
    SignChars(neg, plus);
    DigitChars(i);
    PointChars(f);
    PartsText(SignText(neg, plus), i, PointText(f));
  }

  lemma PlainText(neg: bool, plus: bool, i: string, f: Option<string>, d: nat)
    requires IsDigits(i) && IsDigits(Frac(f))
    ensures var s := SignText(neg, plus) + i + PointText(f);
            IndexOfE(s, 0) == -1 && Plain(s, d) == SignText(neg, plus) + Scaled(i, f, d)
  {
    hide IndexOf, IndexOfE, SignText, IsDigits, Repeat0;
    var g := SignText(neg, plus);
    NumeralText(neg, plus, i, f);
    if f.None? {
      PlainWhole(g, i, d);
    } else {
      PlainPoint(g, i, f.value, d);
    }
  }

  lemma PlainWhole(g: string, i: string, d: nat)
    requires IndexOf(g + i + "", '.', 0) == -1
    ensures Plain(g + i + "", d) == g + (i + "" + Repeat0(d))
  {
    hide IndexOf, Repeat0;
  }

  lemma PlainPoint(g: string, i: string, y: string, d: nat)
    requires var s := g + i + ("." + y);
             IndexOf(s, '.', 0) == |g| + |i| && s[..|g| + |i|] == g + i && s[|g| + |i| + 1..] == y
    ensures Plain(g + i + ("." + y), d) == g + (if |y| <= d then i + y + Repeat0(d - |y|) else i + y[..d])
  {
    hide IndexOf, Repeat0;
    var s, x, z := g + i + ("." + y), |g| + |i|, d - |y|;
    assert d - |s| + x + 1 == z;
    if z > 0 {
      assert Plain(s, d) == g + i + y + Repeat0(z);
      Grouped(g, i, y, Repeat0(z));
    } else {
      assert s[x + 1..|s| + z] == s[x + 1..][..d];
      Grouped(g, i, y[..d], "");
      NoZeros(y);
    }
  }

  lemma Grouped(g: string, i: string, y: string, z: string)
    ensures g + i + y + z == g + (i + y + z) && g + i + y == g + (i + y)
  {
  }

  lemma NoZeros(y: string)
    ensures Repeat0(0) == "" && y[..|y|] == y && forall i: string :: i + y + "" == i + y
  {
  }

  /** Every plain numeral parses to its value in the smallest unit, rounded toward zero. Only a numeral without
      integer digits is refused, and only when no digit behind the point counts. */
  lemma PlainParses(neg: bool, plus: bool, i: string, f: Option<string>, decimals: int)
    requires IsDigits(i) && IsDigits(Frac(f)) && (i != [] || Frac(f) != [])
    ensures var d := ClipDecimals(decimals);
            IsDigits(i + Frac(f))
            && Parse(SignText(neg, plus) + i + PointText(f), decimals)
               == if i == [] && d == 0 then None else Some(Signed(neg, Moved(DigitsValue(i + Frac(f)), d - |Frac(f)|)))
  {
    hide Plain, Moved, IndexOfE, ParseInt;
    var d := ClipDecimals(decimals);
    PlainText(neg, plus, i, f, d);
    ScaledValue(i, f, d);
    SignedRead(neg, plus, Scaled(i, f, d));
  }

  // ---------------------------------------------------------------- round trip

  lemma {:induction false} TrimRightIs(s: string)
    requires IsDigits(s)
    ensures IsDigits(TrimRight0(s)) && |TrimRight0(s)| <= |s| && s == TrimRight0(s) + Repeat0(|s| - |TrimRight0(s)|)
  {
    if s != [] && s[|s| - 1] == '0' {
      var n := |s| - 1;
      TrimRightIs(s[..n]);
      assert s == s[..n] + "0";
    }
  }

  /** The padded digits of an amount. */
  function PaddedDigits(m: nat, d: nat): string {
    var n := Decimal(m);
    if |n| <= d then Repeat0(d - |n| + 1) + n else n
  }

  lemma PrintText(a: int, decimals: nat)
    ensures var d := ClipDecimals(decimals);
            var n := PaddedDigits(if a < 0 then -a else a, d);
            && |n| > d
            && var ad := TrimRight0(n[|n| - d..]);
               Print(a, decimals)
                   == SignText(a < 0, false) + n[..|n| - d] + PointText(if |ad| > 0 then Some(ad) else None)
  {
    hide TrimRight0, Decimal, Repeat0;
    var d := ClipDecimals(decimals);
    var n := PaddedDigits(if a < 0 then -a else a, d);
    var i := |n| - d;
    var ad := TrimRight0(n[i..]);
    if |ad| > 0 {
      Grouped(SignText(a < 0, false), n[..i], ".", ad);
      assert SignText(a < 0, false) + n[..i] + ("." + ad) == SignText(a < 0, false) + n[..i] + "." + ad;
    }
  }

  /** What is printed parses back to the amount, for every amount and every number of decimals. */
  lemma RoundTrip(a: int, decimals: nat)
    ensures Parse(Print(a, decimals), decimals) == Some(a)
  {
    hide Parse, Print, TrimRight0, PaddedDigits, DigitsValue, IsDigits, Moved, SignText, PointText;
    var m := if a < 0 then -a else a;
    var d := ClipDecimals(decimals);
    var n := PaddedDigits(m, d);
    PrintText(a, decimals);
    Padded(m, d);
    var i := |n| - d;
    Cut(n, i);
    TrimRightIs(n[i..]);
    var ad := TrimRight0(n[i..]);
    PlainParses(a < 0, false, n[..i], if |ad| > 0 then Some(ad) else None, decimals);
    Restored(n, i, ad);
  }

  /** A numeral as it is printed: no superfluous zero in front, at most `d` digits behind the point, the last of them
      not zero, and no point without digits behind it. */
  ghost predicate Canonical(text: string, neg: bool, d: nat) {
    exists i, f :: CanonicalParts(text, neg, d, i, f)
  }

  ghost predicate CanonicalParts(text: string, neg: bool, d: nat, i: string, f: string) {
    && text == (if neg then "-" else "") + i + (if f == "" then "" else "." + f)
    && IsDigits(i) && i != "" && (|i| > 1 ==> i[0] != '0')
    && IsDigits(f) && |f| <= d && (f != "" ==> f[|f| - 1] != '0')
  }

  lemma {:induction false} DecimalLeads(n: nat)
    ensures n > 0 ==> Decimal(n)[0] != '0'
    ensures n == 0 ==> Decimal(n) == "0"
  {
    if n >= 10 { DecimalLeads(n / 10); }
  }

  lemma {:induction false} TrimRightEnds(s: string)
    ensures var r := TrimRight0(s); r != "" ==> r[|r| - 1] != '0'
  {
    if s != [] && s[|s| - 1] == '0' { TrimRightEnds(s[..|s| - 1]); }
  }

  /** The digits in front of the point. */
  lemma IntegerDigits(m: nat, d: nat)
    ensures var n := PaddedDigits(m, d);
            |n| > d && var i := n[..|n| - d]; i != "" && (|i| > 1 ==> i[0] != '0')
  {
    DecimalLeads(m);
  }

  /** What is printed is a canonical numeral with the sign of the amount. */
  lemma PrintsCanonical(a: int, decimals: nat)
    ensures Canonical(Print(a, decimals), a < 0, ClipDecimals(decimals))
  {
    hide Print, TrimRight0, PaddedDigits, DigitsValue, IsDigits;
    var m := if a < 0 then -a else a;
    var d := ClipDecimals(decimals);
    var n := PaddedDigits(m, d);
    PrintText(a, decimals);
    Padded(m, d);
    Cut(n, |n| - d);
    TrimRightIs(n[|n| - d..]);
    TrimRightEnds(n[|n| - d..]);
    IntegerDigits(m, d);
    var ad := TrimRight0(n[|n| - d..]);
    assert CanonicalParts(Print(a, decimals), a < 0, d, n[..|n| - d], ad);
  }

  lemma Padded(m: nat, d: nat)
    ensures var n := PaddedDigits(m, d); IsDigits(n) && |n| > d && DigitsValue(n) == m
  {
    hide Decimal, DigitsValue, IsDigits, Repeat0;
    var n0 := Decimal(m);
    DecimalRead(m);
    if |n0| <= d { LeadingZeros(d - |n0| + 1, n0); }
  }

  lemma LeadingZeros(z: nat, n: string)
    requires IsDigits(n)
    ensures IsDigits(Repeat0(z) + n) && DigitsValue(Repeat0(z) + n) == DigitsValue(n)
  {
    hide DigitsValue, Repeat0;
    DigitsJoin(Repeat0(z), n);
    ZerosValue(z);
  }

  lemma Cut(n: string, i: nat)
    requires IsDigits(n) && i <= |n|
    ensures IsDigits(n[..i]) && IsDigits(n[i..])
  {
  }

  /** Putting the trimmed zeroes back gives the number. */
  lemma Restored(n: string, i: nat, ad: string)
    requires IsDigits(n) && i <= |n| && |ad| <= |n| - i && IsDigits(ad) && n[i..] == ad + Repeat0(|n| - i - |ad|)
    ensures IsDigits(n[..i] + ad) && Moved(DigitsValue(n[..i] + ad), |n| - i - |ad|) == DigitsValue(n)
  {
    hide DigitsValue, Repeat0;
    var z := |n| - i - |ad|;
    DigitsJoin(n[..i], ad);
    DigitsExtended(n[..i] + ad, z);
    assert n == n[..i] + n[i..];
    assert n[..i] + (ad + Repeat0(z)) == n[..i] + ad + Repeat0(z);
  }

  // ---------------------------------------------------------------- scientific numerals

  lemma {:induction false} TrimLeftIs(s: string)
    requires IsDigits(s)
    ensures var t := TrimLeft0(s);
            && IsDigits(t) && |t| <= |s| && DigitsValue(t) == DigitsValue(s) && (t != [] ==> t[0] != '0')
            && (t == [] <==> DigitsValue(s) == 0)
  {
    if s != [] && s[0] == '0' {
      TrimLeftIs(s[1..]);
      DigitsJoin("0", s[1..]);
      assert s == "0" + s[1..];
      assert DigitsValue("0") == 0 by { assert "0"[..0] == []; }
    } else if s != [] {
      LeadingDigit(s);
    }
  }

  lemma LeadingDigit(s: string)
    requires IsDigits(s) && s != [] && s[0] != '0'
    ensures DigitsValue(s) > 0
  {
    DigitsJoin(s[..1], s[1..]);
    assert s == s[..1] + s[1..];
    assert s[..1][..0] == [] && DigitsValue(s[..1]) == DigitValue(s[0]) > 0;
    MulGe(DigitsValue(s[..1]), Pow10(|s[1..]|));
  }

  /** The number of digits a scientific numeral is expanded to stays within the bound. */
  predicate Fits(digits: string, shift: int)
    requires IsDigits(digits)
  {
    DigitsValue(digits) == 0 || shift < 0 || |TrimLeft0(digits)| + shift <= MAX_EXPANDED_DIGITS
  }

  lemma ShiftedValue(digits: string, shift: int)
    requires IsDigits(digits)
    ensures var r := Shifted(digits, shift);
            && (r.Some? <==> Fits(digits, shift))
            && (r.Some? ==>
                 r.value != [] && IsDigits(r.value) && DigitsValue(r.value) == Moved(DigitsValue(digits), shift))
  {
    hide TrimLeft0, DigitsValue, Moved, Pow10, Repeat0, IsDigits;
    TrimLeftIs(digits);
    var s := TrimLeft0(digits);
    ZeroText();
    if s == [] {
      MovedZero(shift);
    } else if shift >= 0 {
      Extended(s, shift);
    } else if |s| + shift > 0 {
      Shortened(s, -shift);
    } else {
      DigitsBound(s);
      Pow10Mono(|s|, -shift);
      MovedToNothing(DigitsValue(s), -shift);
    }
  }

  lemma Extended(s: string, k: nat)
    requires IsDigits(s)
    ensures IsDigits(s + Repeat0(k)) && DigitsValue(s + Repeat0(k)) == Moved(DigitsValue(s), k)
  {
    hide DigitsValue, Repeat0;
    DigitsExtended(s, k);
  }

  lemma Shortened(s: string, k: nat)
    requires IsDigits(s) && 0 < k < |s|
    ensures IsDigits(s[..|s| - k]) && DigitsValue(s[..|s| - k]) == Moved(DigitsValue(s), 0 - k)
  {
    hide DigitsValue;
    assert s[..|s| - k] + s[|s| - k..] == s;
    DigitsPrefix(s[..|s| - k], s[|s| - k..]);
  }

  lemma ZeroText()
    ensures IsDigits("0") && DigitsValue("0") == 0
  {
    assert "0"[..0] == [];
  }

  lemma MovedZero(k: int)
    ensures Moved(0, k) == 0
  {
    if k < 0 { DivExact(0, Pow10(-k), 0); }
  }

  lemma MovedToNothing(n: nat, k: nat)
    requires n < Pow10(k) && k > 0
    ensures Moved(n, 0 - k) == 0
  {
    DivExact(0, Pow10(k), n);
  }

  lemma {:induction false} Pow10Mono(a: nat, b: nat)
    requires a <= b
    ensures Pow10(a) <= Pow10(b)
    decreases b
  {
    if a < b { Pow10Mono(a, b - 1); }
  }

  /** The same without a sign. */
  lemma UnsignedText(i: string, f: Option<string>)
    requires IsDigits(i) && IsDigits(Frac(f))
    ensures var s := i + PointText(f);
            && IndexOfE(s, 0) == -1 && IndexOf(s, '.', 0) == (if f.None? then -1 else |i|)
            && (f.Some? ==> s[..|i|] == i && s[|i| + 1..] == f.value)
  {
    hide IndexOf, IndexOfE, IsDigits;
    NumeralText(false, false, i, f);
    assert "" + i == i;
  }

  lemma NoPoint(y: string)
    requires IsDigits(y)
    ensures IndexOf(y, '.', 0) == -1
  {
  }

  lemma MantissaRead(i: string, f: Option<string>)
    requires IsDigits(i) && IsDigits(Frac(f)) && (i != [] || Frac(f) != [])
    ensures Mantissa(i + PointText(f)) == Some((i + Frac(f), |Frac(f)|))
  {
    hide IndexOf, IndexOfE, IsDigits, DigitsValue;
    UnsignedText(i, f);
    DigitsJoin(i, Frac(f));
    NoPoint(Frac(f));
    assert i + "" == i;
  }

  /** The text of an exponent: what Atoi reads as `e`. */
  ghost predicate ExponentText(x: string, e: int) { Atoi(x) == Some(e) }

  lemma ExponentChars(x: string, e: int)
    requires ExponentText(x, e)
    ensures IndexOfE(x, 0) == -1 && x != [] && IsDigit(x[|x| - 1])
  {
    var t := if x[0] == '-' || x[0] == '+' then x[1..] else x;
    assert t != [] && IsDigits(t);
    forall k | 0 <= k < |x| ensures !IsE(x[k]) {
      if x == t { assert IsDigit(t[k]); } else if k > 0 { assert x[k] == t[k - 1] && IsDigit(t[k - 1]); }
    }
    assert x[|x| - 1] == t[|t| - 1];
  }

  lemma UnsignedRead(i: string, f: Option<string>, mark: char, x: string, e: int, d: nat)
    requires IsDigits(i) && IsDigits(Frac(f)) && (i != [] || Frac(f) != []) && IsE(mark) && ExponentText(x, e)
    ensures Unsigned(i + PointText(f) + [mark] + x, d) == Shifted(i + Frac(f), Wrap64(e - |Frac(f)| + d))
  {
    hide Mantissa, Shifted, Atoi, IndexOf, IndexOfE, IsDigits, IsE, Wrap64, PointText, Frac;
    var m := i + PointText(f);
    UnsignedText(i, f);
    ExponentChars(x, e);
    MarkFound(m, mark, x);
    MantissaRead(i, f);
  }

  lemma MarkFound(m: string, mark: char, x: string)
    requires IndexOfE(m, 0) == -1 && IsE(mark)
    ensures var s := m + [mark] + x; IndexOfE(s, 0) == |m| && s[..|m|] == m && s[|m| + 1..] == x
  {
    hide IsE;
    var s := m + [mark] + x;
    forall k | 0 <= k < |m| ensures !IsE(s[k]) { assert s[k] == m[k]; }
    assert s[|m|] == mark;
  }

  lemma NoSpaces(s: string)
    requires s != [] && !IsSpace(s[0]) && !IsSpace(s[|s| - 1])
    ensures TrimSpace(s) == s
  {
  }

  lemma ScientificRead(neg: bool, plus: bool, i: string, f: Option<string>, mark: char, x: string, e: int, d: nat)
    requires IsDigits(i) && IsDigits(Frac(f)) && (i != [] || Frac(f) != []) && IsE(mark) && ExponentText(x, e)
    ensures var s := SignText(neg, plus) + (i + PointText(f) + [mark] + x);
            var r := Shifted(i + Frac(f), Wrap64(e - |Frac(f)| + d));
            && IndexOfE(s, 0) != -1
            && Scientific(s, d) == if neg && r.Some? && r.value != "0" then Some("-" + r.value) else r
  {
    hide Unsigned, Shifted, TrimSpace, Atoi, IndexOfE, ExponentText, Wrap64;
    var g, t := SignText(neg, plus), i + PointText(f) + [mark] + x;
    var s := g + t;
    UnsignedRead(i, f, mark, x, e, d);
    ExponentChars(x, e);
    assert s[|s| - 1] == x[|x| - 1];
    assert s[|g| + |i + PointText(f)|] == mark;
    assert t[0] == '.' || IsDigit(t[0]) by { if i != [] { assert t[0] == i[0]; } }
    NoSpaces(s);
    if neg || plus { assert s[1..] == t; } else { assert s == t; }
  }

  /** The text of a scientific numeral. */
  function ScientificText(neg: bool, plus: bool, i: string, f: Option<string>, mark: char, x: string): string {
    SignText(neg, plus) + (i + PointText(f) + [mark] + x)
  }

  /** The amount a numeral with these digits and the point moved by `k` should give: its value in the smallest unit,
      rounded toward zero, or a refusal when it does not fit. */
  function Wanted(neg: bool, digits: string, k: int): Option<int>
    requires IsDigits(digits)
  {
    if Fits(digits, k) then Some(Signed(neg, Moved(DigitsValue(digits), k))) else None
  }

  /** Every scientific numeral parses to the amount it should give with its shift kept in 64 bits. */
  lemma ScientificParses(neg: bool, plus: bool, i: string, f: Option<string>, mark: char, x: string, e: int,
                         decimals: int)
    requires IsDigits(i) && IsDigits(Frac(f)) && (i != [] || Frac(f) != []) && IsE(mark) && ExponentText(x, e)
    ensures IsDigits(i + Frac(f))
    ensures Parse(ScientificText(neg, plus, i, f, mark, x), decimals)
            == Wanted(neg, i + Frac(f), Wrap64(e - |Frac(f)| + ClipDecimals(decimals)))
  {
    hide Scientific, Shifted, IndexOfE, Moved, Fits, Plain, ExponentText, DigitsValue, IsDigits, TrimLeft0, SignText;
    hide ParseInt, Wrap64;
    var d := ClipDecimals(decimals);
    var k := Wrap64(e - |Frac(f)| + d);
    ScientificRead(neg, plus, i, f, mark, x, e, d);
    DigitsJoin(i, Frac(f));
    ShiftedValue(i + Frac(f), k);
    var r := Shifted(i + Frac(f), k);
    if r.Some? { SignedResult(neg, r.value); }
  }

  /** It is the amount the numeral should give exactly when the shift lies within 64 bits or all digits are zero;
      the length of a text lies within 63 bits. */
  lemma ScientificExactly(neg: bool, plus: bool, i: string, f: Option<string>, mark: char, x: string, e: int,
                          decimals: int)
    requires IsDigits(i) && IsDigits(Frac(f)) && (i != [] || Frac(f) != []) && IsE(mark) && ExponentText(x, e)
    requires InInt64(|i + Frac(f)|)
    ensures IsDigits(i + Frac(f))
    ensures var k := e - |Frac(f)| + ClipDecimals(decimals);
            Parse(ScientificText(neg, plus, i, f, mark, x), decimals) == Wanted(neg, i + Frac(f), k)
            <==> InInt64(k) || DigitsValue(i + Frac(f)) == 0
  {
    hide Parse, ScientificText, IsDigits, Wanted;
    ScientificParses(neg, plus, i, f, mark, x, e, decimals);
    ExponentRange(x, e);
    WantedWrapped(neg, i + Frac(f), e - |Frac(f)| + ClipDecimals(decimals));
  }

  lemma ExponentRange(x: string, e: int)
    requires ExponentText(x, e)
    ensures InInt64(e)
  {
  }

  lemma WantedWrapped(neg: bool, digits: string, k: int)
    requires IsDigits(digits) && InInt64(|digits|) && -0x1_0000_0000_0000_0000 < k < 0x1_0000_0000_0000_0000
    ensures Wanted(neg, digits, Wrap64(k)) == Wanted(neg, digits, k) <==> InInt64(k) || DigitsValue(digits) == 0
  {
    hide TrimLeft0, DigitsValue, Moved, Pow10, IsDigits;
    TrimLeftIs(digits);
    MovedZero(k);
    MovedZero(Wrap64(k));
    if DigitsValue(digits) > 0 && k < -0x8000_0000_0000_0000 {
      // the value is 0; the wrapped shift multiplies, or is too large
      assert Wrap64(k) == k + 0x1_0000_0000_0000_0000 > 0;
      DigitsBound(digits);
      Pow10Mono(|digits|, -k);
      MovedToNothing(DigitsValue(digits), -k);
      MovedUp(DigitsValue(digits), Wrap64(k));
    } else if DigitsValue(digits) > 0 && k >= 0x8000_0000_0000_0000 {
      assert Wrap64(k) == k - 0x1_0000_0000_0000_0000 < 0;
    }
  }

  lemma MovedUp(n: nat, k: nat)
    requires n > 0
    ensures Moved(n, k) > 0
  {
    MulGe(Pow10(k), n);
  }

  /** The eight largest exponents: a number that does not fit is not refused, but taken for 0. */
  lemma HugeExponentIsZero(n: nat)
    requires 0x7FFF_FFFF_FFFF_FFF8 <= n < 0x8000_0000_0000_0000
    ensures Parse("1e" + Decimal(n), 8) == Some(0)
    ensures IsDigits("1") && Wanted(false, "1", n + 8) == None
  {
    hide Decimal, Parse, Moved, Pow10, ExponentText, Wrap64, TrimLeft0, DigitsValue, IsDigits;
    DecimalExponent(n);
    OneDigit();
    OneText(Decimal(n));
    ScientificParses(false, false, "1", None, 'e', Decimal(n), n, 8);
    WrapsOver(n + 8);
    OnePower(-Wrap64(n + 8));
    MovedToNothing(1, -Wrap64(n + 8));
  }

  lemma OneText(x: string)
    ensures ScientificText(false, false, "1", None, 'e', x) == "1e" + x && "1" + Frac(None) == "1" && Frac(None) == ""
    ensures ScientificText(false, false, "", Some("1"), 'e', "-" + x) == ".1e-" + x && "" + Frac(Some("1")) == "1"
  {
  }

  lemma WrapsOver(k: int)
    requires 0x8000_0000_0000_0000 <= k < 0x1_0000_0000_0000_0000
    ensures Wrap64(k) == k - 0x1_0000_0000_0000_0000 < 0
  {
  }

  /** The smallest exponent: a number that is 0 in the smallest unit is refused. */
  lemma TinyExponentRefused(n: nat)
    requires n == 0x8000_0000_0000_0000
    ensures Parse(".1e-" + Decimal(n), 0) == None
    ensures IsDigits("1") && Wanted(false, "1", -1 - n) == Some(0)
  {
    hide Decimal, Parse, Moved, Pow10, ExponentText, TrimLeft0, DigitsValue, IsDigits;
    DecimalExponent(n);
    OneDigit();
    OneText(Decimal(n));
    ScientificParses(false, false, "", Some("1"), 'e', "-" + Decimal(n), 0 - n, 0);
    assert Wrap64(-1 - n) == 0x7FFF_FFFF_FFFF_FFFF;
    OnePower(1 + n);
    MovedToNothing(1, 1 + n);
  }

  lemma DecimalExponent(n: nat)
    ensures InInt64(n) ==> ExponentText(Decimal(n), n)
    ensures InInt64(0 - n) ==> ExponentText("-" + Decimal(n), 0 - n)
  {
    hide Decimal, DigitsValue, IsDigits, ParseInt;
    DecimalRead(n);
    SignedRead(false, false, Decimal(n));
    SignedRead(true, false, Decimal(n));
    assert "" + Decimal(n) == Decimal(n);
  }

  lemma OneDigit()
    ensures IsDigits("") && IsDigits("1") && DigitsValue("1") == 1 && TrimLeft0("1") == "1"
  {
    assert "1"[..0] == [];
  }

  lemma OnePower(k: nat)
    requires k > 0
    ensures 1 < Pow10(k)
  {
    MulGe(10, Pow10(k - 1));
  }

  lemma SignedResult(neg: bool, r: string)
    requires r != [] && IsDigits(r)
    ensures ParseInt(if neg && r != "0" then "-" + r else r) == Some(Signed(neg, DigitsValue(r)))
  {
    hide ParseInt, DigitsValue, IsDigits;
    SignedRead(neg, false, r);
    SignedRead(false, false, r);
    assert "" + r == r;
    ZeroText();
  }

  // ---------------------------------------------------------------- both notations

  lemma MovedScaled(n: nat, k: int, c: nat)
    requires c + k >= 0
    ensures Moved(n, k) == n * Pow10(c + k) / Pow10(c)
  {
    var p := Pow10(c);
    if k >= 0 {
      Pow10Add(k, c);
      assert n * Pow10(c + k) == n * Pow10(k) * p + 0 by { MulAssoc(n, Pow10(k), p); }
      DivExact(n * Pow10(k), p, 0);
    } else {
      var q := Pow10(-k);
      Pow10Add(c + k, -k);
      var a := Pow10(c + k);
      var y, r := n / q, n % q;
      assert n == y * q + r;
      assert n * a == y * p + r * a by { Distribute2(y, q, r, a); }
      assert r * a < p by { MulLess(r, q, a); }
      DivExact(y, p, r * a);
    }
  }

  lemma MulAssoc(x: nat, y: nat, z: nat)
    ensures x * (y * z) == x * y * z
  {
  }

  lemma Distribute2(y: nat, q: nat, r: nat, a: nat)
    ensures (y * q + r) * a == y * (a * q) + r * a
  {
    MulAssoc(y, q, a);
    assert q * a == a * q;
    Distribute(y * q, r, a);
  }

  lemma MulLess(r: nat, q: nat, a: nat)
    requires r < q && a > 0
    ensures r * a < a * q
  {
    MulStep(r, q, a);
    assert q * a == a * q;
  }

  /** n * 10^k and n' * 10^k' are the same number. */
  ghost predicate SameNumber(n: nat, k: int, n': nat, k': int) { exists c: nat :: SameTimes(n, k, n', k', c) }

  /** They are when taken 10^c times. */
  predicate SameTimes(n: nat, k: int, n': nat, k': int, c: nat) {
    c + k >= 0 && c + k' >= 0 && n * Pow10(c + k) == n' * Pow10(c + k')
  }

  lemma SameMoved(n: nat, k: int, n': nat, k': int, d: nat)
    requires SameNumber(n, k, n', k')
    ensures Moved(n, k + d) == Moved(n', k' + d)
  {
    var c: nat :| SameTimes(n, k, n', k', c);
    Pow10Add(c + k, d);
    Pow10Add(c + k', d);
    MulAssoc(n, Pow10(c + k), Pow10(d));
    MulAssoc(n', Pow10(c + k'), Pow10(d));
    MovedScaled(n, k + d, c);
    MovedScaled(n', k' + d, c);
  }

  /** A plain and a scientific numeral of the same number parse to the same amount exactly when neither is refused:
      the plain one has integer digits or decimals count, and the scientific one fits. */
  lemma NotationsAgree(neg: bool, plus: bool, i: string, f: Option<string>, plus': bool, i': string,
                       f': Option<string>, mark: char, x: string, e: int, decimals: int)
    requires IsDigits(i) && IsDigits(Frac(f)) && (i != [] || Frac(f) != [])
    requires IsDigits(i') && IsDigits(Frac(f')) && (i' != [] || Frac(f') != []) && IsE(mark) && ExponentText(x, e)
    requires IsDigits(i + Frac(f)) && IsDigits(i' + Frac(f'))
    requires SameNumber(DigitsValue(i + Frac(f)), -|Frac(f)|, DigitsValue(i' + Frac(f')), e - |Frac(f')|)
    requires InInt64(e - |Frac(f')| + ClipDecimals(decimals))
    ensures var plain := Parse(SignText(neg, plus) + i + PointText(f), decimals);
            var scientific := Parse(ScientificText(neg, plus', i', f', mark, x), decimals);
            && (plain.None? <==> i == [] && ClipDecimals(decimals) == 0)
            && (scientific.None? <==> !Fits(i' + Frac(f'), e - |Frac(f')| + ClipDecimals(decimals)))
            && (plain.Some? && scientific.Some? ==> plain == scientific)
  {
    hide Parse, ScientificText, SignText, Moved, DigitsValue, IsDigits, SameNumber, Fits, ExponentText, Wrap64;
    PlainParses(neg, plus, i, f, decimals);
    ScientificParses(neg, plus', i', f', mark, x, e, decimals);
    SameMoved(DigitsValue(i + Frac(f)), -|Frac(f)|, DigitsValue(i' + Frac(f')), e - |Frac(f')|, ClipDecimals(decimals));
  }
}
