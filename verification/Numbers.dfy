/** Zero-padded decimal numbers and the order of the file names built from them. */
module Numbers {
  import opened Common

  predicate IsDigit(c: char) {
    '0' <= c <= '9'
  }

  function DigitValue(c: char): (v: nat)
    requires IsDigit(c)
    ensures v < 10
  {
    c as int - '0' as int
  }

  function DigitChar(v: nat): (c: char)
    requires v < 10
    ensures IsDigit(c) && DigitValue(c) == v
  {
    ('0' as int + v) as char
  }

  predicate AllDigits(s: string) {
    forall i :: 0 <= i < |s| ==> IsDigit(s[i])
  }

  /** The decimal digits of `n`, no leading zero except for zero itself. */
  function Decimal(n: nat): (s: string)
    ensures |s| > 0 && AllDigits(s)
  {
    if n < 10 then [DigitChar(n)] else Decimal(n / 10) + [DigitChar(n % 10)]
  }

  function PadTo(s: string, width: nat): (r: string)
    requires AllDigits(s)
    ensures |r| == Max(|s|, width) && AllDigits(r)
    decreases width - |s|
  {
    if |s| >= width then s else PadTo("0" + s, width)
  }

  /** `_fmt`: at least three digits. */
  function Fmt(n: nat): (s: string)
    ensures |s| >= 3 && AllDigits(s)
  {
    PadTo(Decimal(n), 3)
  }

  function Parse(s: string): nat
    requires AllDigits(s)
  {
    if s == [] then 0 else Parse(s[..|s| - 1]) * 10 + DigitValue(s[|s| - 1])
  }

  function Pow10(k: nat): (p: nat)
    ensures p > 0
  {
    if k == 0 then 1 else 10 * Pow10(k - 1)
  }

  // ---------------------------------------------------------------- round trip

  lemma {:induction false} ParseLeadingZero(s: string)
    requires AllDigits(s)
    ensures Parse("0" + s) == Parse(s)
  {
    if s == [] {
      assert "0" + s == "0";
      assert Parse("0"[..0]) == 0;
    } else {
      ParseLeadingZero(s[..|s| - 1]);
      assert ("0" + s)[..|s|] == "0" + s[..|s| - 1];
    }
  }

  lemma {:induction false} ParsePad(s: string, width: nat)
    requires AllDigits(s)
    ensures Parse(PadTo(s, width)) == Parse(s)
    decreases width - |s|
  {
    if |s| < width {
      ParsePad("0" + s, width);
      ParseLeadingZero(s);
    }
  }

  lemma {:induction false} ParseDecimal(n: nat)
    ensures Parse(Decimal(n)) == n
  {
    if n < 10 {
      var s := Decimal(n);
      assert Parse(s[..0]) == 0;
    } else {
      ParseDecimal(n / 10);
      assert Decimal(n)[..|Decimal(n)| - 1] == Decimal(n / 10);
    }
  }

  /** Reading a formatted number back gives the number, whatever its size. */
  lemma ParseFmt(n: nat)
    ensures Parse(Fmt(n)) == n
  {
    ParseDecimal(n);
    ParsePad(Decimal(n), 3);
  }

  /** `s` writes `n` in digits, with zeros in front only up to the width. */
  ghost predicate Spells(s: string, width: nat, n: nat) {
    AllDigits(s) && |s| >= width && (|s| > width ==> s[0] != '0') && Parse(s) == n
  }

  lemma {:induction false} DecimalSpells(n: nat)
    ensures Spells(Decimal(n), 1, n)
  {
    ParseDecimal(n);
    if n >= 10 {
      DecimalSpells(n / 10);
      assert |Decimal(n / 10)| == 1 ==> Decimal(n / 10) == [DigitChar(n / 10)];
    }
  }

  lemma FmtSpells(n: nat)
    ensures Spells(Fmt(n), 3, n)
  {
    ParseFmt(n);
    DecimalSpells(n);
  }

  lemma FmtInjective(n: nat, m: nat)
    ensures Fmt(n) == Fmt(m) <==> n == m
  {
    ParseFmt(n);
    ParseFmt(m);
  }

  // ---------------------------------------------------------------- widths

  lemma {:induction false} ParseBelowPow10(s: string)
    requires AllDigits(s)
    ensures Parse(s) < Pow10(|s|)
  {
    if s != [] {
      ParseBelowPow10(s[..|s| - 1]);
    }
  }

  lemma {:induction false} DecimalLeadingDigit(n: nat)
    ensures n > 0 ==> n >= Pow10(|Decimal(n)| - 1)
  {
    if n >= 10 {
      DecimalLeadingDigit(n / 10);
    }
  }

  lemma {:induction false} Pow10Monotone(a: nat, b: nat)
    requires a <= b
    ensures Pow10(a) <= Pow10(b)
    decreases b
  {
    if a < b {
      Pow10Monotone(a, b - 1);
    }
  }

  /** Three digits exactly up to 999; one more for every further power of ten. */
  lemma FmtWidth(n: nat, w: nat)
    requires w >= 3
    ensures |Fmt(n)| <= w <==> n < Pow10(w)
  {
    ParseFmt(n);
    ParseBelowPow10(Fmt(n));
    if |Fmt(n)| <= w {
      Pow10Monotone(|Fmt(n)|, w);
    } else {
      DecimalLeadingDigit(n);
      Pow10Monotone(w, |Decimal(n)| - 1);
    }
  }

  lemma {:induction false} ThreeDigits(n: nat)
    ensures |Fmt(n)| == 3 <==> n <= 999
  {
    FmtWidth(n, 3);
    assert Pow10(3) == 10 * Pow10(2) && Pow10(2) == 10 * Pow10(1) && Pow10(1) == 10 * Pow10(0);
  }

  lemma FmtWidthMonotone(n: nat, m: nat)
    requires n <= m
    ensures |Fmt(n)| <= |Fmt(m)|
  {
    FmtWidth(n, |Fmt(m)|);
    FmtWidth(m, |Fmt(m)|);
  }

  // ---------------------------------------------------------------- lexicographic order

  lemma {:induction false} LexCommonPrefix(p: string, a: string, b: string)
    ensures LexLess(p + a, p + b) == LexLess(a, b)
  {
    if p == [] {
      assert p + a == a && p + b == b;
    } else {
      LexCommonPrefix(p[1..], a, b);
      assert (p + a)[1..] == p[1..] + a && (p + b)[1..] == p[1..] + b;
    }
  }

  /** Two different strings of one length are ordered whatever follows them. */
  lemma {:induction false} LexDecidedEarly(a: string, b: string, x: string, y: string)
    requires |a| == |b| && a != b
    ensures LexLess(a + x, b + y) == LexLess(a, b)
  {
    if a[0] == b[0] {
      assert a[1..] != b[1..] by {
        assert a == [a[0]] + a[1..] && b == [b[0]] + b[1..];
      }
      LexDecidedEarly(a[1..], b[1..], x, y);
    }
    assert (a + x)[1..] == a[1..] + x && (b + y)[1..] == b[1..] + y;
  }

  lemma {:induction false} ParseHead(s: string)
    requires AllDigits(s) && s != []
    ensures Parse(s) == DigitValue(s[0]) * Pow10(|s| - 1) + Parse(s[1..])
  {
    if |s| == 1 {
      assert Parse(s[..0]) == 0 && Parse(s[1..]) == 0;
    } else {
      var front := s[..|s| - 1];
      ParseHead(front);
      assert front[1..] == s[1..][..|s| - 2];
      assert Parse(s[1..]) == Parse(front[1..]) * 10 + DigitValue(s[|s| - 1]);
      ShiftHead(DigitValue(s[0]), Pow10(|s| - 2), Parse(front[1..]), DigitValue(s[|s| - 1]));
    }
  }

  lemma ShiftHead(d: nat, p: nat, x: nat, last: nat)
    ensures (d * p + x) * 10 + last == d * (10 * p) + (x * 10 + last)
  {
  }

  lemma LeadingDigitDecides(p: nat, x: nat, s: nat, y: nat, t: nat)
    requires s < p && t < p
    ensures x * p + s < y * p + t <==> x < y || (x == y && s < t)
  {
    if x < y {
      LowerProduct(p, x, y);
    } else if y < x {
      LowerProduct(p, y, x);
    }
  }

  lemma {:induction false} LowerProduct(p: nat, x: nat, y: nat)
    requires x < y
    ensures x * p + p <= y * p
    decreases y
  {
    if x + 1 < y {
      LowerProduct(p, x, y - 1);
      assert y * p == (y - 1) * p + p;
    } else {
      assert y * p == x * p + p;
    }
  }

  /** On digit strings of one length, lexicographic order is numeric order. */
  lemma {:induction false} LexIsNumericAtEqualWidth(a: string, b: string)
    requires AllDigits(a) && AllDigits(b) && |a| == |b|
    ensures LexLess(a, b) <==> Parse(a) < Parse(b)
  {
    if a != [] {
      ParseHead(a);
      ParseHead(b);
      ParseBelowPow10(a[1..]);
      ParseBelowPow10(b[1..]);
      LexIsNumericAtEqualWidth(a[1..], b[1..]);
      var p, x, y := Pow10(|a| - 1), DigitValue(a[0]), DigitValue(b[0]);
      LeadingDigitDecides(p, x, Parse(a[1..]), y, Parse(b[1..]));
    }
  }

  lemma {:induction false} ParsePrefix(s: string, w: nat)
    requires AllDigits(s) && w <= |s|
    ensures Parse(s[..w]) == Parse(s) / Pow10(|s| - w)
    decreases |s|
  {
    if w < |s| {
      var front := s[..|s| - 1];
      ParsePrefix(front, w);
      assert front[..w] == s[..w];
      var v, p, d := Parse(front), Pow10(|front| - w), DigitValue(s[|s| - 1]);
      DivideTwice(v, d, p);
    } else {
      assert s[..w] == s;
    }
  }

  lemma DivideTwice(v: nat, d: nat, p: nat)
    requires d < 10 && p > 0
    ensures (v * 10 + d) / (10 * p) == v / p
  {
    var q, r := v / p, v % p;
    assert v == q * p + r;
    var rest := r * 10 + d;
    assert rest < 10 * p;
    assert v * 10 + d == q * (10 * p) + rest by {
      assert (q * p) * 10 == q * (10 * p);
    }
    QuotientUnique(v * 10 + d, 10 * p, q, rest);
  }

  lemma QuotientUnique(n: nat, d: nat, q: nat, r: nat)
    requires d > 0 && r < d && n == q * d + r
    ensures n / d == q
  {
    var q', r' := n / d, n % d;
    assert n == q' * d + r' && r' < d;
    LeadingDigitDecides(d, q', r', q, r);
    LeadingDigitDecides(d, q, r, q', r');
  }

  /** The number formed by the leading `|Fmt(n)|` digits of `Fmt(m)`. */
  function LeadingDigits(m: nat, n: nat): nat
    requires |Fmt(n)| <= |Fmt(m)|
  {
    m / Pow10(|Fmt(m)| - |Fmt(n)|)
  }

  /** A migration's file name. */
  function MigrationName(n: nat, description: string): string {
    Fmt(n) + "_" + description + ".sql"
  }

  /** The runner applies migrations in `sorted` name order. That order agrees with the numbers
      exactly when the widths are equal or the leading digits of the larger number already exceed
      the smaller one; so always up to 999, and not for 999 against 1000. */
  lemma NameOrderAgreesExactly(n: nat, m: nat, x: string, y: string)
    requires n < m
    ensures |Fmt(n)| <= |Fmt(m)|
    ensures LexLess(MigrationName(n, x), MigrationName(m, y))
       <==> |Fmt(n)| == |Fmt(m)| || n < LeadingDigits(m, n)
  {
    FmtWidthMonotone(n, m);
    var a, b := Fmt(n), Fmt(m);
    var w := |a|;
    ParseFmt(n);
    ParseFmt(m);
    ParsePrefix(b, w);
    LexIsNumericAtEqualWidth(a, b[..w]);
    assert b == b[..w] + b[w..];
    assert MigrationName(m, y) == b[..w] + (b[w..] + "_" + y + ".sql");
    assert MigrationName(n, x) == a + ("_" + x + ".sql");
    DigitsThenUnderscore(a, b[..w], b[w..], x + ".sql", y + ".sql");
    assert "_" + (x + ".sql") == "_" + x + ".sql" && b[w..] + "_" + (y + ".sql") == b[w..] + "_" + y + ".sql";
    if |a| == |b| {
      assert b[..w] == b;
    }
  }

  /** With heads of one length, the heads decide; equal heads, an underscore sorts after any digit. */
  lemma DigitsThenUnderscore(a: string, top: string, tail: string, x: string, y: string)
    requires |a| == |top| && AllDigits(tail)
    ensures a != top ==> LexLess(a + ("_" + x), top + (tail + "_" + y)) == LexLess(a, top)
    ensures a == top && tail != "" ==> !LexLess(a + ("_" + x), top + (tail + "_" + y))
  {
    if a == top {
      LexCommonPrefix(a, "_" + x, tail + "_" + y);
      assert tail != "" ==> (tail + "_" + y)[0] == tail[0];
    } else {
      LexDecidedEarly(a, top, "_" + x, tail + "_" + y);
    }
  }

  lemma NameOrderUpTo999(n: nat, m: nat, x: string, y: string)
    requires n < m <= 999
    ensures LexLess(MigrationName(n, x), MigrationName(m, y))
  {
    NameOrderAgreesExactly(n, m, x, y);
    ThreeDigits(n);
    ThreeDigits(m);
  }

  lemma NameOrderBreaksAtOneThousand(n: nat, x: string, y: string)
    requires 100 <= n <= 999
    ensures !LexLess(MigrationName(n, x), MigrationName(1000, y))
  {
    NameOrderAgreesExactly(n, 1000, x, y);
    ThreeDigits(n);
    ThreeDigits(1000);
    FmtWidth(1000, 4);
    assert Pow10(4) == 10 * Pow10(3) && Pow10(3) == 10 * Pow10(2) && Pow10(2) == 10 * Pow10(1);
    assert LeadingDigits(1000, n) == 1000 / Pow10(1);
  }
}
