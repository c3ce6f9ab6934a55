/**
 * Currency amounts as whole paise (hundredths of a rupee), so that sums and
 * the `===` comparison of the dashboard are exact. Two conversions touch
 * text: `Number(text)` when a total fee arrives as a string, and
 * `toFixed(2)` when a receipt prints an amount.
 */
module Money {
  import opened Wrappers
  import opened Text

  /** An amount of money in paise; negative amounts are possible (overpayment leaves a negative balance). */
  type Paise = int

  predicate IsDigit(c: char) { '0' <= c <= '9' }

  predicate AllDigits(s: string)
  {
    forall i :: 0 <= i < |s| ==> IsDigit(s[i])
  }

  function DigitValue(c: char): (d: nat)
    requires IsDigit(c)
    ensures d < 10
  {
    c as int - '0' as int
  }

  function DigitChar(d: nat): (c: char)
    requires d < 10
    ensures IsDigit(c) && DigitValue(c) == d
  {
    ('0' as int + d) as char
  }

  /** The value of a string of decimal digits, most significant first. */
  function DigitsValue(s: string): nat
    requires AllDigits(s)
  {
    if s == [] then 0 else DigitsValue(s[..|s| - 1]) * 10 + DigitValue(s[|s| - 1])
  }

  /** The decimal digits of `n`, without leading zeros. */
  function DecimalDigits(n: nat): (r: string)
    ensures |r| >= 1 && AllDigits(r)
  {
    if n < 10 then [DigitChar(n)] else DecimalDigits(n / 10) + [DigitChar(n % 10)]
  }

  /** Reading back the digits written for `n` gives `n`. */
  lemma {:induction false} DecimalDigitsRoundTrip(n: nat)
    ensures DigitsValue(DecimalDigits(n)) == n
  {
    if n >= 10 {
      var s := DecimalDigits(n);
      DecimalDigitsRoundTrip(n / 10);
      assert s[..|s| - 1] == DecimalDigits(n / 10);
    }
  }

  /** The index of the first `c` in `s`, or `|s|` when there is none. */
  function IndexOf(s: string, c: char): (r: nat)
    ensures r <= |s|
    ensures r < |s| ==> s[r] == c
    ensures forall i :: 0 <= i < r ==> s[i] != c
  {
    if s == [] then 0 else if s[0] == c then 0 else 1 + IndexOf(s[1..], c)
  }

  /** The paise value of a fraction of at most two digits: "5" is 50 paise, "05" is 5 paise. */
  function FractionValue(f: string): (p: nat)
    requires AllDigits(f) && |f| <= 2
    ensures p < 100
  {
    if |f| == 0 then 0
    else if |f| == 1 then DigitValue(f[0]) * 10
    else DigitValue(f[0]) * 10 + DigitValue(f[1])
  }

  /** An unsigned number: digits, an optional '.', at most two fraction digits, at least one digit in all. */
  function ParseUnsigned(body: string): (r: Option<nat>)
  {
    var dot := IndexOf(body, '.');
    var whole := body[..dot];
    var frac := if dot < |body| then body[dot + 1..] else [];
    if AllDigits(whole) && AllDigits(frac) && |whole| + |frac| > 0 && |frac| <= 2 then
      Some(DigitsValue(whole) * 100 + FractionValue(frac))
    else
      None
  }

  /**
   * `Number(text)` for a total fee given as text, in paise. White space
   * around the number is ignored, white space alone reads as 0, a sign is
   * optional, and the number is digits with an optional '.' and at most two
   * fraction digits. Anything else is NaN, here `None`.
   */
  function ParseAmount(text: string): (r: Option<Paise>)
    ensures Trim(text) == "" ==> r == Some(0)
  {
    var t := Trim(text);
    if t == [] then Some(0) else ParseSigned(t)
  }

  /** A number with an optional sign, already trimmed. */
  function ParseSigned(t: string): (r: Option<Paise>)
    requires t != []
    ensures t[0] != '-' && t[0] != '+' ==> r == ParseUnsigned(t)
    ensures t[0] == '-' || t[0] == '+' ==> r.Some? == ParseUnsigned(t[1..]).Some?
    ensures t[0] == '+' && r.Some? ==> r.value == ParseUnsigned(t[1..]).value
    ensures t[0] == '-' && r.Some? ==> r.value + ParseUnsigned(t[1..]).value == 0
  {
    var body := if t[0] == '-' || t[0] == '+' then t[1..] else t;
    match ParseUnsigned(body)
    case None => None
    case Some(v) => var n: int := v; Some(if t[0] == '-' then -n else n)
  }

  /** The characters a number may be made of: digits and the point, and a sign in front. */
  predicate AmountChar(t: string, i: int)
    requires 0 <= i < |t|
  {
    IsDigit(t[i]) || t[i] == '.' || (i == 0 && (t[i] == '-' || t[i] == '+'))
  }

  /**
   * The unsigned numbers `Number` reads here: digits and at most one point,
   * at most two digits after the point, and at least one digit in all.
   */
  predicate UnsignedText(body: string)
  {
    && (forall i :: 0 <= i < |body| ==> IsDigit(body[i]) || body[i] == '.')
    && (forall i, j :: 0 <= i < |body| && 0 <= j < |body| && body[i] == '.' && body[j] == '.' ==> i == j)
    && (forall i :: 0 <= i < |body| && body[i] == '.' ==> i >= |body| - 3)
    && (exists i :: 0 <= i < |body| && IsDigit(body[i]))
  }

  /** The text `Number` reads, once trimmed: nothing at all, or an optional sign and an unsigned number. */
  predicate AmountText(t: string)
  {
    t == [] || UnsignedText(if t[0] == '-' || t[0] == '+' then t[1..] else t)
  }

  /** `ParseUnsigned` accepts exactly the unsigned numbers. */
  lemma ParseUnsignedExact(body: string)
    ensures ParseUnsigned(body).Some? <==> UnsignedText(body)
  {
    var dot := IndexOf(body, '.');
    var whole := body[..dot];
    var frac := if dot < |body| then body[dot + 1..] else [];
    forall i | dot < i < |body|
      ensures body[i] == frac[i - dot - 1]
    {
    }
    forall i | 0 <= i < dot
      ensures body[i] == whole[i]
    {
    }
    if ParseUnsigned(body).Some? {
      forall i | 0 <= i < |body|
        ensures IsDigit(body[i]) || (body[i] == '.' && i == dot)
      {
      }
      if |whole| > 0 {
        assert IsDigit(body[0]);
      } else {
        assert IsDigit(body[dot + 1]);
      }
    }
    if UnsignedText(body) {
      var k :| 0 <= k < |body| && IsDigit(body[k]);
      assert k != dot;
    }
  }

  /** `ParseAmount` accepts exactly the text that trims to nothing or to a signed or unsigned number. */
  lemma ParseAmountExact(text: string)
    ensures ParseAmount(text).Some? <==> AmountText(Trim(text))
  {
    var t := Trim(text);
    if t != [] {
      ParseUnsignedExact(if t[0] == '-' || t[0] == '+' then t[1..] else t);
    }
  }

  /** A sign in front of an unsigned number: the sign only in front, digits and at most one point after it. */
  lemma SignedShape(t: string)
    requires t != [] && UnsignedText(if t[0] == '-' || t[0] == '+' then t[1..] else t)
    ensures forall i :: 0 <= i < |t| ==> AmountChar(t, i)
    ensures forall i, j :: 0 <= i < |t| && 0 <= j < |t| && t[i] == '.' && t[j] == '.' ==> i == j
    ensures forall i :: 0 <= i < |t| && t[i] == '.' ==> i >= |t| - 3
  {
    var body := if t[0] == '-' || t[0] == '+' then t[1..] else t;
    var k := |t| - |body|;
    forall i | k <= i < |t|
      ensures t[i] == body[i - k]
    {
    }
  }

  /** Whole rupees typed as plain digits, as the registration form sends them, read as that many rupees. */
  lemma ParseDigits(d: string)
    requires d != [] && AllDigits(d)
    ensures ParseAmount(d) == Some(100 * DigitsValue(d))
  {
    TrimOfTrimmed(d);
    ParseUnsignedDigits(d);
  }

  lemma ParseUnsignedDigits(d: string)
    requires d != [] && AllDigits(d)
    ensures ParseUnsigned(d) == Some(100 * DigitsValue(d))
  {
    assert IndexOf(d, '.') == |d|;
    assert d[..|d|] == d;
  }

  /** In particular the decimal text of `n` reads as `n` rupees. */
  lemma ParseDecimalDigits(n: nat)
    ensures ParseAmount(DecimalDigits(n)) == Some(100 * n)
  {
    ParseDigits(DecimalDigits(n));
    DecimalDigitsRoundTrip(n);
  }

  /** The two digits of the paise part of `a`. */
  function PaiseDigits(a: nat): (r: string)
    ensures |r| == 2 && AllDigits(r) && FractionValue(r) == a % 100
  {
    PaiseSplit(a);
    [DigitChar(a % 100 / 10), DigitChar(a % 10)]
  }

  /** The paise part of `a` is its tens digit and its units digit. */
  lemma PaiseSplit(a: nat)
    ensures (a % 100 / 10) * 10 + a % 10 == a % 100
  {
    var p := a % 100;
    var h := p / 10;
    var l := p % 10;
    assert a == 100 * (a / 100) + p;
    assert p == 10 * h + l;
    assert a == 10 * (10 * (a / 100) + h) + l;
  }

  /** The unsigned text `toFixed(2)` writes for `a` paise. */
  function UnsignedFixed2(a: nat): (r: string)
    ensures |r| >= 4 && IsDigit(r[0]) && r[|r| - 3] == '.' && IsDigit(r[|r| - 2]) && IsDigit(r[|r| - 1])
  {
    DecimalDigits(a / 100) + "." + PaiseDigits(a)
  }

  /** `(amount / 100).toFixed(2)`: exact here, since the amount is whole paise. */
  function FormatFixed2(amount: Paise): (r: string)
    ensures |r| >= 4 && r[|r| - 3] == '.' && IsDigit(r[|r| - 2]) && IsDigit(r[|r| - 1])
    ensures amount < 0 <==> r[0] == '-'
  {
    if amount < 0 then "-" + UnsignedFixed2(-amount) else UnsignedFixed2(amount)
  }

  /** Splitting a number's text at its point recovers the whole and the fraction part. */
  lemma SplitAtPoint(whole: string, frac: string)
    requires AllDigits(whole)
    ensures IndexOf(whole + "." + frac, '.') == |whole|
  {
    var s := whole + "." + frac;
    assert s[|whole|] == '.';
    assert forall i :: 0 <= i < |whole| ==> s[i] == whole[i];
  }

  lemma UnsignedRoundTrip(a: nat)
    ensures ParseUnsigned(UnsignedFixed2(a)) == Some(a)
  {
    var digits := DecimalDigits(a / 100);
    var body := UnsignedFixed2(a);
    SplitAtPoint(digits, PaiseDigits(a));
    assert body[..|digits|] == digits;
    assert body[|digits| + 1..] == PaiseDigits(a);
    DecimalDigitsRoundTrip(a / 100);
  }

  /** Printed amounts need no trimming: they start with '-' or a digit and end with a digit. */
  lemma FormattedIsTrimmed(amount: Paise)
    ensures Trim(FormatFixed2(amount)) == FormatFixed2(amount)
  {
    var s := FormatFixed2(amount);
    assert !IsWhitespace(s[0]) && !IsWhitespace(s[|s| - 1]);
    TrimOfTrimmed(s);
  }

  /** A printed amount reads back, through `Number`, as the same amount. */
  lemma FormatParseRoundTrip(amount: Paise)
    ensures ParseAmount(FormatFixed2(amount)) == Some(amount)
  {
    FormattedIsTrimmed(amount);
    SignedRoundTrip(amount);
  }

  lemma SignedRoundTrip(amount: Paise)
    ensures ParseSigned(FormatFixed2(amount)) == Some(amount)
  {
    if amount < 0 {
      NegativeRoundTrip(amount);
    } else {
      UnsignedRoundTrip(amount);
      assert IsDigit(FormatFixed2(amount)[0]);
    }
  }

  /** A leading '-' negates the value of the text after it. */
  lemma SignedOfNegated(u: string, v: nat)
    requires ParseUnsigned(u) == Some(v)
    ensures ParseSigned("-" + u) == Some(-(v as int))
  {
    var t := "-" + u;
    assert t[0] == '-' && t[1..] == u;
  }

  lemma NegativeRoundTrip(amount: Paise)
    requires amount < 0
    ensures ParseSigned(FormatFixed2(amount)) == Some(amount)
  {
    var u := UnsignedFixed2(-amount);
    assert FormatFixed2(amount) == "-" + u;
    UnsignedRoundTrip(-amount);
    SignedOfNegated(u, -amount);
  }
}
