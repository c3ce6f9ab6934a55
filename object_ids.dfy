/**
 * Database object ids, which accounts and fee records both carry, and their
 * text form: `id.toString()` is 24 lower-case hex digits.
 */
module ObjectIds {
  import opened Text

  /** A database object id; its text form holds its low 96 bits. */
  type ObjectId = nat

  const LowerHexDigits: string := "0123456789abcdef"

  predicate IsHexDigit(c: char)
  {
    '0' <= c <= '9' || 'a' <= c <= 'f' || 'A' <= c <= 'F'
  }

  /** The value of a hex digit of either case. */
  function HexDigitValue(c: char): (d: nat)
    requires IsHexDigit(c)
    ensures d < 16
  {
    if '0' <= c <= '9' then c as int - '0' as int
    else if 'a' <= c <= 'f' then c as int - 'a' as int + 10
    else c as int - 'A' as int + 10
  }

  /** The value of a string of hex digits, most significant first. */
  function HexValue(s: string): nat
    requires forall i :: 0 <= i < |s| ==> IsHexDigit(s[i])
  {
    if s == [] then 0 else HexValue(s[..|s| - 1]) * 16 + HexDigitValue(s[|s| - 1])
  }

  function Pow16(k: nat): (p: nat)
    ensures p > 0
  {
    if k == 0 then 1 else 16 * Pow16(k - 1)
  }

  /** The lower-case digit for `d` reads back as `d`. */
  lemma HexDigitRoundTrip(d: nat)
    requires d < 16
    ensures IsHexDigit(LowerHexDigits[d]) && !IsUpper(LowerHexDigits[d]) && HexDigitValue(LowerHexDigits[d]) == d
  {
    if d < 10 {
      assert LowerHexDigits[d] as int == '0' as int + d;
    } else {
      assert LowerHexDigits[d] as int == 'a' as int + d - 10;
    }
  }

  lemma MulAtLeast(k: int, m: int)
    requires k >= 1 && m > 0
    ensures k * m >= m
  {
    assert k * m == m + (k - 1) * m;
  }

  /** Euclidean division by `m` has one quotient and one remainder. */
  lemma DivModUnique(n: int, m: int, q: int, r: int)
    requires m > 0 && 0 <= r < m && n == q * m + r
    ensures n / m == q && n % m == r
  {
    var q', r' := n / m, n % m;
    assert n == q' * m + r' && 0 <= r' < m;
    assert (q - q') * m == r' - r;
    if q > q' {
      MulAtLeast(q - q', m);
    } else if q < q' {
      MulAtLeast(q' - q, m);
    }
  }

  /** The remainder by `16 p` is the remainder by 16 plus sixteen times the remainder of the quotient by `p`. */
  lemma ModStep(n: nat, p: nat)
    requires p > 0
    ensures (n / 16 % p) * 16 + n % 16 == n % (16 * p)
  {
    var q, b := n / 16 / p, n / 16 % p;
    assert n / 16 == q * p + b;
    assert n == q * (16 * p) + (b * 16 + n % 16);
    DivModUnique(n, 16 * p, q, b * 16 + n % 16);
  }

  /** `toString(16)` padded or cut to `width` digits, lower case, most significant first. */
  function HexString(n: nat, width: nat): (r: string)
    ensures |r| == width
    ensures forall i :: 0 <= i < width ==> IsHexDigit(r[i]) && !IsUpper(r[i])
  {
    if width == 0 then []
    else
      HexDigitRoundTrip(n % 16);
      HexString(n / 16, width - 1) + [LowerHexDigits[n % 16]]
  }

  /** The `width` hex digits written for `n` read back as the low `width` hex digits of `n`. */
  lemma {:induction false} HexStringValue(n: nat, width: nat)
    ensures HexValue(HexString(n, width)) == n % Pow16(width)
  {
    if width > 0 {
      var rest := HexString(n / 16, width - 1);
      var r := HexString(n, width);
      assert r == rest + [LowerHexDigits[n % 16]];
      assert r[..|r| - 1] == rest;
      HexStringValue(n / 16, width - 1);
      HexDigitRoundTrip(n % 16);
      ModStep(n, Pow16(width - 1));
    }
  }

  /** The number of hex digits in an object id's text form. */
  const ObjectIdDigits: nat := 24

  /** `id.toString()` */
  function ObjectIdString(id: ObjectId): (s: string)
    ensures |s| == ObjectIdDigits && forall i :: 0 <= i < |s| ==> IsHexDigit(s[i]) && !IsUpper(s[i])
    ensures HexValue(s) == id % Pow16(ObjectIdDigits)
  {
    HexStringValue(id, ObjectIdDigits);
    HexString(id, ObjectIdDigits)
  }

  /** The last `k` of `w` hex digits of `n` are the `k`-digit hex string of `n`. */
  lemma {:induction false} HexSuffix(n: nat, w: nat, k: nat)
    requires k <= w
    ensures HexString(n, w)[w - k..] == HexString(n, k)
  {
    if k > 0 {
      var a, rest, d := HexString(n, w), HexString(n / 16, w - 1), LowerHexDigits[n % 16];
      assert a == rest + [d];
      HexSuffix(n / 16, w - 1, k - 1);
      assert a[w - k..] == rest[w - k..] + [d];
      assert HexString(n, k) == HexString(n / 16, k - 1) + [d];
    }
  }
}
