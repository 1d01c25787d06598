/** Amounts written the Brazilian way, `1.234,56`: '.' groups thousands and
    ',' starts the decimals. The screens read one by dropping every '.',
    turning the first ',' into '.', and handing the text to `parseFloat`. */
module PtBrNumber {
  import opened Common
  import opened JsText

  /** `s.replace(/\./g, '').replace(',', '.')` */
  function Normalized(s: string): (r: string)
    ensures '.' !in s && ',' !in s ==> r == s
  {
    ReplaceFirst(RemoveAll(s, '.'), ',', '.')
  }

  function Pow10(n: nat): (p: nat)
    ensures p >= 1
  {
    if n == 0 then 1 else 10 * Pow10(n - 1)
  }

  /** The value of `n` written as `places` decimal digits after the point. */
  function Fraction(n: nat, places: nat): (r: real)
    ensures r >= 0.0
  {
    n as real / Pow10(places) as real
  }

  /** A JavaScript number as read from text: NaN, or a value. */
  datatype Number = NaN | Finite(value: real)

  /** The digits after the point that follows the leading digits, if any. */
  function FractionDigits(t: string): (r: string)
    ensures AllDigits(r)
  {
    var rest := t[|DigitPrefix(t)|..];
    if rest != [] && rest[0] == '.' then DigitPrefix(rest[1..]) else []
  }

  /** `parseFloat` on a text that starts with neither white space, a sign,
      nor `Infinity`, and holds no exponent (every text it is handed here):
      the longest prefix of digits, optionally '.' and more digits; nothing
      readable gives NaN. */
  function ParseFloat(t: string): (r: Number)
    ensures r.Finite? ==> r.value >= 0.0
    ensures r.NaN? <==> DigitPrefix(t) == [] && !(|t| >= 2 && t[0] == '.' && IsDigit(t[1]))
  {
    var whole, fraction := DigitPrefix(t), FractionDigits(t);
    if whole == [] && fraction == [] then NaN
    else Finite(DecValue(whole) as real + Fraction(DecValue(fraction), |fraction|))
  }

  /** The integer part of the price pattern: `[0-9]{1,3}(\.[0-9]{3})*`. */
  predicate GroupedDigits(p: string)
    decreases |p|
  {
    (1 <= |p| <= 3 && AllDigits(p))
    || (|p| > 4 && p[|p| - 4] == '.' && AllDigits(p[|p| - 3..]) && GroupedDigits(p[..|p| - 4]))
  }

  /** `^[0-9]{1,3}(\.[0-9]{3})*,[0-9]{2}$` */
  predicate PtBrPrice(s: string) {
    |s| >= 4 && s[|s| - 3] == ',' && AllDigits(s[|s| - 2..]) && GroupedDigits(s[..|s| - 3])
  }

  /** The amount in cents a price text stands for: its digits. */
  function PriceCents(s: string): nat {
    DecValue(DigitsOnly(s))
  }

  lemma {:induction false} RemoveAllConcat(a: string, b: string, c: char)
    ensures RemoveAll(a + b, c) == RemoveAll(a, c) + RemoveAll(b, c)
  {
    if a != [] {
      assert (a + b)[1..] == a[1..] + b;
      RemoveAllConcat(a[1..], b, c);
    } else {
      assert a + b == b;
    }
  }

  lemma RemoveAllSingle(x: char, c: char)
    ensures RemoveAll([x], c) == if x == c then [] else [x]
  {
    assert [x][1..] == [];
  }

  lemma {:induction false} DigitsOnlyConcat(a: string, b: string)
    ensures DigitsOnly(a + b) == DigitsOnly(a) + DigitsOnly(b)
  {
    if a != [] {
      assert (a + b)[1..] == a[1..] + b;
      DigitsOnlyConcat(a[1..], b);
    } else {
      assert a + b == b;
    }
  }

  lemma DigitsOnlyNonDigit(c: char)
    requires !IsDigit(c)
    ensures DigitsOnly([c]) == []
  {
    assert [c][1..] == [];
  }

  /** Without its dots, the integer part is its digits, and not empty. */
  lemma {:induction false} GroupedDigitsUndotted(p: string)
    requires GroupedDigits(p)
    ensures RemoveAll(p, '.') == DigitsOnly(p) && DigitsOnly(p) != [] && ',' !in p
    decreases |p|
  {
    if 1 <= |p| <= 3 && AllDigits(p) {
      assert '.' !in p by { forall i | 0 <= i < |p| ensures p[i] != '.' { assert IsDigit(p[i]); } }
    } else {
      var head, tail := p[..|p| - 4], p[|p| - 3..];
      assert p == head + ['.'] + tail;
      GroupedDigitsUndotted(head);
      assert '.' !in tail && ',' !in tail by { forall i | 0 <= i < |tail| ensures tail[i] != '.' && tail[i] != ',' { assert IsDigit(tail[i]); } }
      RemoveAllConcat(head + ['.'], tail, '.');
      RemoveAllConcat(head, ['.'], '.');
      DigitsOnlyConcat(head + ['.'], tail);
      DigitsOnlyConcat(head, ['.']);
      DigitsOnlyNonDigit('.');
      RemoveAllSingle('.', '.');
    }
  }

  lemma ShiftDigit(x: nat, p: nat, y: nat, d: nat)
    ensures 10 * (x * p + y) + d == x * (10 * p) + (10 * y + d)
  {
  }

  lemma {:induction false} DecValueConcat(a: string, b: string)
    requires AllDigits(a) && AllDigits(b)
    ensures AllDigits(a + b)
    ensures DecValue(a + b) == DecValue(a) * Pow10(|b|) + DecValue(b)
    decreases |b|
  {
    assert AllDigits(a + b) by { forall i | 0 <= i < |a + b| ensures IsDigit((a + b)[i]) { if i >= |a| { assert (a + b)[i] == b[i - |a|]; } } }
    if b == [] {
      assert a + b == a;
    } else {
      var b', last := b[..|b| - 1], b[|b| - 1];
      assert (a + b)[..|a + b| - 1] == a + b';
      assert (a + b)[|a + b| - 1] == last;
      DecValueConcat(a, b');
      assert DecValue(a + b) == 10 * DecValue(a + b') + DigitValue(last);
      assert DecValue(b) == 10 * DecValue(b') + DigitValue(last);
      assert Pow10(|b|) == 10 * Pow10(|b'|);
      ShiftDigit(DecValue(a), Pow10(|b'|), DecValue(b'), DigitValue(last));
    }
  }

  lemma {:induction false} NoDot(t: string)
    requires AllDigits(t)
    ensures '.' !in t && ',' !in t
  {
    forall i | 0 <= i < |t| ensures t[i] != '.' && t[i] != ',' { assert IsDigit(t[i]); }
  }

  /** Dropping `c` around a separator `sep`, with no `c` after it. */
  lemma {:induction false} RemoveAroundSeparator(p: string, sep: char, rest: string, c: char)
    requires sep != c && c !in rest
    ensures RemoveAll(p + [sep] + rest, c) == RemoveAll(p, c) + ([sep] + rest)
  {
    calc {
      RemoveAll(p + [sep] + rest, c);
      { RemoveAllConcat(p + [sep], rest, c); }
      RemoveAll(p + [sep], c) + RemoveAll(rest, c);
      { RemoveAllConcat(p, [sep], c); RemoveAllSingle(sep, c); }
      RemoveAll(p, c) + [sep] + rest;
      RemoveAll(p, c) + ([sep] + rest);
    }
  }

  /** The first comma after a run of digits becomes the decimal point. */
  lemma ReplaceCommaAfterDigits(d: string, cents: string)
    requires AllDigits(d)
    ensures ReplaceFirst(d + ([','] + cents), ',', '.') == d + ['.'] + cents
  {
    NoDot(d);
    IndexOfAfterFree(d, ',', [','] + cents);
    assert (d + ([','] + cents))[|d| := '.'] == d + ['.'] + cents;
  }

  /** The replacements turn a price text into its integer digits, '.', and
      its two decimals. */
  lemma NormalizedPrice(p: string, cents: string)
    requires GroupedDigits(p) && AllDigits(cents)
    ensures Normalized(p + [','] + cents) == DigitsOnly(p) + ['.'] + cents
  {
    GroupedDigitsUndotted(p);
    NoDot(cents);
    RemoveAroundSeparator(p, ',', cents, '.');
    ReplaceCommaAfterDigits(DigitsOnly(p), cents);
  }

  lemma LeadingDigits(d: string, cents: string)
    requires AllDigits(d)
    ensures DigitPrefix(d + (['.'] + cents)) == d
  {
    DigitPrefixOfDigits(d, ['.'] + cents);
  }

  lemma FractionAfterPoint(d: string, cents: string)
    requires AllDigits(d) && AllDigits(cents)
    ensures FractionDigits(d + (['.'] + cents)) == cents
  {
    var rest := ['.'] + cents;
    var t := d + rest;
    DigitPrefixOfDigits(d, rest);
    assert t[|d|..] == rest;
    assert rest[1..] == cents;
    DigitPrefixOfDigits(cents, []);
    assert cents + [] == cents;
  }

  lemma ParseFloatOfParts(t: string, d: string, cents: string)
    requires d != [] && AllDigits(d) && AllDigits(cents)
    requires DigitPrefix(t) == d && FractionDigits(t) == cents
    ensures ParseFloat(t) == Finite(DecValue(d) as real + Fraction(DecValue(cents), |cents|))
  {
  }

  /** `parseFloat` on digits, a point and digits reads both parts. */
  lemma ParseFloatWithCents(d: string, cents: string)
    requires d != [] && AllDigits(d) && AllDigits(cents)
    ensures ParseFloat(d + ['.'] + cents) == Finite(DecValue(d) as real + Fraction(DecValue(cents), |cents|))
  {
    var t := d + (['.'] + cents);
    assert d + ['.'] + cents == t;
    LeadingDigits(d, cents);
    FractionAfterPoint(d, cents);
    ParseFloatOfParts(t, d, cents);
  }

  lemma CentsSplit(whole: nat, cents: nat)
    ensures (whole * 100 + cents) as real / 100.0 == whole as real + Fraction(cents, 2)
  {
    assert Pow10(2) == 100;
  }

  /** Digits followed by two more, read as cents, are the whole part plus
      the two-digit fraction. */
  lemma CentsValue(d: string, cents: string)
    requires AllDigits(d) && AllDigits(cents) && |cents| == 2
    ensures AllDigits(d + cents)
    ensures DecValue(d + cents) as real / 100.0 == DecValue(d) as real + Fraction(DecValue(cents), |cents|)
  {
    DecValueConcat(d, cents);
    assert Pow10(|cents|) == 100;
    CentsSplit(DecValue(d), DecValue(cents));
  }

  lemma DigitsOfPrice(p: string, cents: string)
    requires AllDigits(cents)
    ensures DigitsOnly(p + [','] + cents) == DigitsOnly(p) + cents
  {
    var q := p + [','];
    DigitsOnlyConcat(q, cents);
    DigitsOnlyConcat(p, [',']);
    DigitsOnlyNonDigit(',');
    assert DigitsOnly(q) == DigitsOnly(p);
  }

  /** A text whose normal form is `d.cents` and whose digits are `d`
      followed by `cents` reads as those digits taken as cents. */
  lemma PriceOfDigits(s: string, d: string, cents: string)
    requires d != [] && AllDigits(d) && AllDigits(cents) && |cents| == 2
    requires Normalized(s) == d + ['.'] + cents && DigitsOnly(s) == d + cents
    ensures ParseFloat(Normalized(s)) == Finite(PriceCents(s) as real / 100.0)
  {
    ParseFloatWithCents(d, cents);
    CentsValue(d, cents);
  }

  /** For a text matching the price pattern, what `parseFloat` reads after
      the replacements is its digits taken as cents. */
  lemma PriceOfParts(p: string, cents: string)
    requires GroupedDigits(p) && AllDigits(cents) && |cents| == 2
    ensures ParseFloat(Normalized(p + [','] + cents)) == Finite(PriceCents(p + [','] + cents) as real / 100.0)
  {
    GroupedDigitsUndotted(p);
    NormalizedPrice(p, cents);
    DigitsOfPrice(p, cents);
    PriceOfDigits(p + [','] + cents, DigitsOnly(p), cents);
  }

  lemma PriceReadsAsCents(s: string)
    requires PtBrPrice(s)
    ensures ParseFloat(Normalized(s)) == Finite(PriceCents(s) as real / 100.0)
  {
    var p, cents := s[..|s| - 3], s[|s| - 2..];
    assert s == p + [','] + cents;
    PriceOfParts(p, cents);
  }
}
