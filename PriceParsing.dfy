/**
 * Price normalisation of the games table (`float_prices`).
 *
 * A raw price is absent, a number, or text. Numbers are exact decimals
 * (`mantissa / 10^exp`); rounding to two decimals yields a whole number of
 * cents. The fallback chain is: absent -> NaN; directly convertible ->
 * rounded number; otherwise the first match of the pattern `\B[$]\d*[.]\d*`
 * without its `$`; otherwise 0.
 */
module PriceParsing {
  import opened Wrappers

  /** An exact decimal number: `mantissa / 10^exp`. */
  datatype Decimal = Decimal(mantissa: int, exp: nat)

  /** A value found in the raw `price` column. */
  datatype RawPrice =
    | Absent                 // Python `None`
    | NotANumber             // a float NaN already in the column
    | Number(d: Decimal)     // an int or float
    | Text(s: string)        // any string

  /** What `float_prices` yields: NaN, an amount in cents, or a raised ValueError. */
  datatype PriceOutcome = NaN | Amount(cents: int) | PriceError

  // ---------------------------------------------------------------------
  // Arithmetic helpers
  // ---------------------------------------------------------------------

  function Pow10(k: nat): (r: nat)
    ensures r >= 1
  {
    if k == 0 then 1 else 10 * Pow10(k - 1)
  }

  lemma {:induction false} Pow10Add(a: nat, b: nat)
    ensures Pow10(a + b) == Pow10(a) * Pow10(b)
  {
    if a > 0 {
      Pow10Add(a - 1, b);
      assert Pow10(a + b) == 10 * Pow10(a - 1 + b);
    }
  }

  function Abs(x: int): nat { if x < 0 then -x else x }

  // ---------------------------------------------------------------------
  // Characters
  // ---------------------------------------------------------------------

  predicate IsDigit(c: char) { '0' <= c <= '9' }

  /** A character `\w` matches (ASCII letters, digits and underscore). */
  predicate IsWordChar(c: char)
  {
    IsDigit(c) || ('a' <= c <= 'z') || ('A' <= c <= 'Z') || c == '_'
  }

  /** Python's whitespace, which `float()` strips: ASCII and Unicode spaces and separators. */
  predicate IsSpace(c: char)
  {
    var k := c as int;
    (9 <= k <= 13) || (28 <= k <= 32) || k == 0x85 || k == 0xA0 || k == 0x1680
    || (0x2000 <= k <= 0x200A) || k == 0x2028 || k == 0x2029 || k == 0x202F || k == 0x205F || k == 0x3000
  }

  predicate AllDigits(s: string)
  {
    forall k :: 0 <= k < |s| ==> IsDigit(s[k])
  }

  /** The value of a string of decimal digits. */
  function DigitsValue(ds: string): (v: nat)
    requires AllDigits(ds)
  {
    if ds == [] then 0
    else DigitsValue(ds[..|ds| - 1]) * 10 + (ds[|ds| - 1] as int - '0' as int)
  }

  /** Appending digits shifts the value left: `value(a + f) = value(a) * 10^|f| + value(f)`. */
  lemma {:induction false} DigitsValueAppend(a: string, f: string)
    requires AllDigits(a) && AllDigits(f)
    ensures AllDigits(a + f)
    ensures DigitsValue(a + f) == DigitsValue(a) * Pow10(|f|) + DigitsValue(f)
  {
    if f != [] {
      var f' := f[..|f| - 1];
      assert (a + f)[..|a + f| - 1] == a + f';
      assert (a + f)[|a + f| - 1] == f[|f| - 1];
      DigitsValueAppend(a, f');
      var x, p, y, d := DigitsValue(a), Pow10(|f'|), DigitsValue(f'), f[|f| - 1] as int - '0' as int;
      assert DigitsValue(a + f) == (x * p + y) * 10 + d;
      assert DigitsValue(f) == y * 10 + d;
      assert Pow10(|f|) == p * 10;
      ShiftDigit(x, p, y, d);
    } else {
      assert a + f == a;
    }
  }

  lemma ShiftDigit(x: int, p: int, y: int, d: int)
    ensures (x * p + y) * 10 + d == x * (p * 10) + (y * 10 + d)
  {
  }

  /** The end of the longest run of digits starting at `i`. */
  function DigitRun(s: string, i: nat): (j: nat)
    requires i <= |s|
    ensures i <= j <= |s|
    decreases |s| - i
  {
    if i < |s| && IsDigit(s[i]) then DigitRun(s, i + 1) else i
  }

  /** The run is made of digits and is as long as possible. */
  lemma {:induction false} DigitRunSpec(s: string, i: nat)
    requires i <= |s|
    ensures forall k :: i <= k < DigitRun(s, i) ==> IsDigit(s[k])
    ensures DigitRun(s, i) == |s| || !IsDigit(s[DigitRun(s, i)])
    decreases |s| - i
  {
    if i < |s| && IsDigit(s[i]) {
      DigitRunSpec(s, i + 1);
    }
  }

  /** A run of digits of known length ends where the digits end. */
  lemma {:induction false} DigitRunIs(s: string, i: nat, j: nat)
    requires i <= j <= |s|
    requires forall k :: i <= k < j ==> IsDigit(s[k])
    requires j == |s| || !IsDigit(s[j])
    ensures DigitRun(s, i) == j
    decreases j - i
  {
    if i < j {
      DigitRunIs(s, i + 1, j);
    }
  }

  // ---------------------------------------------------------------------
  // float(): conversion of a whole string to a number
  // ---------------------------------------------------------------------

  function TrimLeft(s: string): string
  {
    if s != [] && IsSpace(s[0]) then TrimLeft(s[1..]) else s
  }

  function TrimRight(s: string): string
  {
    if s != [] && IsSpace(s[|s| - 1]) then TrimRight(s[..|s| - 1]) else s
  }

  /**
   * An unsigned decimal literal: `digits`, `digits.`, `.digits` or
   * `digits.digits`, with at least one digit.
   */
  function ParseUnsigned(t: string): (r: Option<Decimal>)
    ensures r.Some? ==> r.value.mantissa >= 0
  {
    var j := DigitRun(t, 0);
    if j == |t| then
      (if j == 0 then None else DigitRunSpec(t, 0); Some(Decimal(DigitsValue(t), 0)))
    else if t[j] != '.' then None
    else
      var k := DigitRun(t, j + 1);
      if k != |t| || (j == 0 && k == j + 1) then None
      else
        DigitRunSpec(t, 0);
        DigitRunSpec(t, j + 1);
        assert AllDigits(t[..j]) && AllDigits(t[j + 1..]);
        DigitsValueAppend(t[..j], t[j + 1..]);
        Some(Decimal(DigitsValue(t[..j] + t[j + 1..]), k - j - 1))
  }

  /**
   * Python's `float(text)` on the decimal forms the model covers: surrounding
   * whitespace, an optional sign, then an unsigned decimal literal.
   */
  function ParseFloat(s: string): Option<Decimal>
  {
    var t := TrimRight(TrimLeft(s));
    if t != [] && (t[0] == '+' || t[0] == '-') then
      match ParseUnsigned(t[1..])
      case None => None
      case Some(d) => Some(if t[0] == '-' then Decimal(-d.mantissa, d.exp) else d)
    else ParseUnsigned(t)
  }

  /** A string of digits followed by a non-digit (or nothing) has its digit run where the digits end. */
  lemma DigitsThenStop(a: string, v: string)
    requires AllDigits(a) && (v == [] || !IsDigit(v[0]))
    ensures DigitRun(a + v, 0) == |a|
  {
    forall k | 0 <= k < |a| ensures IsDigit((a + v)[k]) {
      assert (a + v)[k] == a[k];
    }
    assert |a| == |a + v| || (a + v)[|a|] == v[0];
    DigitRunIs(a + v, 0, |a|);
  }

  /** Digit runs do not depend on what precedes them. */
  lemma {:induction false} DigitRunShift(p: string, u: string, i: nat)
    requires i <= |u|
    ensures DigitRun(p + u, |p| + i) == |p| + DigitRun(u, i)
    decreases |u| - i
  {
    if i < |u| {
      assert (p + u)[|p| + i] == u[i];
      if IsDigit(u[i]) {
        DigitRunShift(p, u, i + 1);
      }
    }
  }

  /** An unsigned literal with its point at `j`. */
  lemma ParseUnsignedPointed(t: string, j: nat)
    requires j < |t| && t[j] == '.' && |t| > 1
    requires AllDigits(t[..j]) && AllDigits(t[j + 1..])
    ensures ParseUnsigned(t) == Some(Decimal(DigitsValue(t[..j] + t[j + 1..]), |t| - j - 1))
  {
    assert t == t[..j] + t[j..];
    DigitsThenStop(t[..j], t[j..]);
    assert t[j + 1..] == t[j + 1..][..];
    assert t == t[..j + 1] + t[j + 1..];
    DigitRunShift(t[..j + 1], t[j + 1..], 0);
    DigitsThenStop(t[j + 1..], []);
    assert t[j + 1..] + [] == t[j + 1..];
  }

  /** `float()` accepts `a.f` for digit strings `a` and `f` that are not both empty, with value `a + f/10^|f|`. */
  lemma ParsePointed(a: string, f: string)
    requires AllDigits(a) && AllDigits(f) && a + f != []
    ensures AllDigits(a + f)
    ensures ParseFloat(a + "." + f) == Some(Decimal(DigitsValue(a + f), |f|))
    ensures DigitsValue(a + f) == DigitsValue(a) * Pow10(|f|) + DigitsValue(f)
  {
    var t := a + "." + f;
    DigitsValueAppend(a, f);
    PointedLayout(a, f);
    assert TrimRight(TrimLeft(t)) == t;
    ParseUnsignedPointed(t, |a|);
  }

  /** Where the parts of `a.f` sit: it starts and ends with a digit or the point. */
  lemma PointedLayout(a: string, f: string)
    requires AllDigits(a) && AllDigits(f)
    ensures var t := a + "." + f;
      |t| == |a| + 1 + |f| && t[..|a|] == a && t[|a|] == '.' && t[|a| + 1..] == f
      && (IsDigit(t[0]) || t[0] == '.') && (IsDigit(t[|t| - 1]) || t[|t| - 1] == '.')
  {
    var t := a + "." + f;
    assert t[0] == (if a != [] then a[0] else '.');
    assert t[|t| - 1] == (if f != [] then f[|f| - 1] else '.');
  }

  // ---------------------------------------------------------------------
  // round(x, 2): round half to even on exact decimals, in cents
  // ---------------------------------------------------------------------

  /**
   * `round(d, 2)` as a whole number of cents `r`: `r / 100` is within half a
   * cent of `d`, and on an exact tie `r` is even (Python rounds half to even).
   */
  function RoundCents(d: Decimal): (r: int)
    ensures RoundsTo(d, r)
  {
    var m := d.mantissa;
    if d.exp <= 2 then
      var k := Pow10(2 - d.exp);
      Pow10Add(2 - d.exp, d.exp);
      ExactCents(m, k, Pow10(d.exp));
      m * k
    else
      var D := Pow10(d.exp - 2);
      Pow10Add(d.exp - 2, 2);
      var q, rem := m / D, m % D;
      var c := if 2 * rem < D then q
               else if 2 * rem > D then q + 1
               else if q % 2 == 0 then q
               else q + 1;
      RoundStep(m, D, Pow10(d.exp), q, rem, c);
      c
  }

  lemma ExactCents(m: int, k: int, p: int)
    requires k * p == 100
    ensures m * 100 - (m * k) * p == 0
  {
    assert (m * k) * p == m * (k * p);
  }

  /** The rounding step once `m = q * D + rem` is known. */
  lemma RoundStep(m: int, D: int, P: int, q: int, rem: int, c: int)
    requires D >= 1 && P == D * 100
    requires m == q * D + rem && 0 <= rem < D
    requires c == if 2 * rem < D then q
                  else if 2 * rem > D then q + 1
                  else if q % 2 == 0 then q
                  else q + 1
    ensures 2 * Abs(m * 100 - c * P) <= P
    ensures 2 * Abs(m * 100 - c * P) == P ==> c % 2 == 0
  {
    assert m * 100 - c * P == 100 * (m - c * D) by {
      assert c * P == c * (D * 100) == 100 * (c * D);
    }
    if c == q {
      assert m - c * D == rem;
    } else {
      assert (q + 1) * D == q * D + D;
      assert m - c * D == rem - D;
    }
  }

  lemma Distrib(c1: int, c2: int, p: int)
    ensures (c1 - c2) * p == c1 * p - c2 * p
  {
  }

  /** A multiple `k * p` of `p >= 1` that lies in `[-p, p]` has `k` in `[-1, 1]`. */
  lemma BoundedFactor(k: int, p: int)
    requires p >= 1 && -p <= k * p <= p
    ensures -1 <= k <= 1
  {
    if k >= 2 {
      assert k * p == (k - 2) * p + 2 * p;
      MulNonneg(k - 2, p);
    } else if k <= -2 {
      assert k * p == -((-k - 2) * p) - 2 * p;
      MulNonneg(-k - 2, p);
    }
  }

  lemma MulNonneg(a: nat, b: nat)
    ensures a * b >= 0
  {
  }

  /** Two whole multiples of `p` that both lie within `p/2` of `x` are at most `p` apart. */
  lemma CloseMultiples(x: int, c1: int, c2: int, p: nat)
    requires p >= 1
    requires 2 * Abs(x - c1 * p) <= p && 2 * Abs(x - c2 * p) <= p
    ensures Abs(c1 - c2) <= 1
    ensures Abs(c1 - c2) == 1 ==> 2 * Abs(x - c1 * p) == p && 2 * Abs(x - c2 * p) == p
  {
    var k := c1 - c2;
    Distrib(c1, c2, p);
    BoundedFactor(k, p);
  }

  /**
   * The rounding is determined by its contract: any number of cents within
   * half a cent of `d`, even on a tie, is `RoundCents(d)`.
   */
  lemma RoundCentsUnique(d: Decimal, c: int)
    requires RoundsTo(d, c)
    ensures c == RoundCents(d)
  {
    CloseMultiples(d.mantissa * 100, c, RoundCents(d), Pow10(d.exp));
  }

  // ---------------------------------------------------------------------
  // re.search(r"(\B[$]\d*[.]\d*)", text)
  // ---------------------------------------------------------------------

  /**
   * The pattern matches at `i`: a `$` not preceded by a word character
   * (`\B`, since `$` is not one), the longest run of digits after it, then a
   * `.`. Backtracking over `\d*` cannot help, since a shorter run is
   * followed by a digit and not by `.`.
   */
  predicate MatchAt(s: string, i: nat)
  {
    && i < |s|
    && s[i] == '$'
    && (i == 0 || !IsWordChar(s[i - 1]))
    && DigitRun(s, i + 1) < |s|
    && s[DigitRun(s, i + 1)] == '.'
  }

  /** The end of the match at `i`: the greedy `\d*` after the `.`. */
  function MatchEnd(s: string, i: nat): (e: nat)
    requires MatchAt(s, i)
    ensures i + 2 <= e <= |s|
  {
    DigitRun(s, DigitRun(s, i + 1) + 1)
  }

  /** The leftmost position at or after `from` where the pattern matches. */
  function SearchDollar(s: string, from: nat): (r: Option<nat>)
    requires from <= |s|
    ensures r.Some? ==> from <= r.value && MatchAt(s, r.value)
    ensures r.Some? ==> forall j :: from <= j < r.value ==> !MatchAt(s, j)
    ensures r.None? ==> forall j :: from <= j ==> !MatchAt(s, j)
    decreases |s| - from
  {
    if from == |s| then None
    else if MatchAt(s, from) then Some(from)
    else SearchDollar(s, from + 1)
  }

  // ---------------------------------------------------------------------
  // float_prices
  // ---------------------------------------------------------------------

  /** The price outcome of the text after the `$` of a match. */
  function MatchedAmount(s: string, i: nat): PriceOutcome
    requires MatchAt(s, i)
  {
    match ParseFloat(s[i + 1..MatchEnd(s, i)])
    case Some(d) => Amount(RoundCents(d))
    case None => PriceError   // `float('')` raises on the bare "$." match
  }

  /** `float_prices(value)`: the ordered four-branch fallback. */
  function FloatPrices(v: RawPrice): PriceOutcome
  {
    match v
    case Absent => NaN
    case NotANumber => NaN
    case Number(d) => Amount(RoundCents(d))
    case Text(s) =>
      match ParseFloat(s)
      case Some(d) => Amount(RoundCents(d))
      case None =>
        match SearchDollar(s, 0)
        case None => Amount(0)
        case Some(i) => MatchedAmount(s, i)
  }

  /**
   * `c` cents is `round(d, 2)`: within half a cent of `d`, and even on an
   * exact tie (Python rounds half to even).
   */
  predicate RoundsTo(d: Decimal, c: int)
  {
    2 * Abs(d.mantissa * 100 - c * Pow10(d.exp)) <= Pow10(d.exp)
    && (2 * Abs(d.mantissa * 100 - c * Pow10(d.exp)) == Pow10(d.exp) ==> c % 2 == 0)
  }

  /**
   * The fallback chain stated on the input: a missing value stays missing; a
   * number, or text that `float()` accepts, gives exactly the cents that
   * round its value, whatever the text search would find; text without a
   * match anywhere is 0.
   */
  lemma FallbackChain(v: RawPrice)
    ensures v.Absent? || v.NotANumber? ==> FloatPrices(v) == NaN
    ensures v.Number? ==> forall c :: FloatPrices(v) == Amount(c) <==> RoundsTo(v.d, c)
    ensures v.Text? && ParseFloat(v.s).Some? ==>
      forall c :: FloatPrices(v) == Amount(c) <==> RoundsTo(ParseFloat(v.s).value, c)
    ensures v.Text? && ParseFloat(v.s).None? && (forall i :: !MatchAt(v.s, i)) ==> FloatPrices(v) == Amount(0)
  {
    match v
    case Absent =>
    case NotANumber =>
    case Number(d) =>
      RoundsExactly(d);
    case Text(s) =>
      if ParseFloat(s).Some? {
        RoundsExactly(ParseFloat(s).value);
      } else {
        var r := SearchDollar(s, 0);
        assert r.Some? ==> MatchAt(s, r.value);
      }
  }

  /** The cents that round `d` are exactly `RoundCents(d)`. */
  lemma RoundsExactly(d: Decimal)
    ensures forall c :: c == RoundCents(d) <==> RoundsTo(d, c)
  {
    forall c | RoundsTo(d, c)
      ensures c == RoundCents(d)
    {
      RoundCentsUnique(d, c);
    }
  }

  /** The bare match `$.` leaves nothing that `float()` accepts. */
  lemma BareDotRejected()
    ensures ParseFloat(".") == None
  {
    assert TrimLeft(".") == ".";
    assert TrimRight(".") == ".";
    assert DigitRun(".", 0) == 0;
    assert DigitRun(".", 1) == 1;
  }

  /** The positions of `pre + "$" + a + "." + f + rest`, part by part. */
  lemma DollarLayout(s: string, pre: string, a: string, f: string, rest: string)
    requires s == pre + "$" + a + "." + f + rest
    ensures |s| == |pre| + 2 + |a| + |f| + |rest|
    ensures s[|pre|] == '$' && s[|pre| + 1 + |a|] == '.'
    ensures |pre| > 0 ==> s[|pre| - 1] == pre[|pre| - 1]
    ensures rest != [] ==> s[|pre| + 2 + |a| + |f|] == rest[0]
  {
    assert s == pre + ("$" + (a + "." + f) + rest);
  }

  /** The digit parts of `pre + "$" + a + "." + f + rest`, as slices. */
  lemma DollarSlices(s: string, pre: string, a: string, f: string, rest: string)
    requires s == pre + "$" + a + "." + f + rest
    ensures |s| == |pre| + 2 + |a| + |f| + |rest|
    ensures s[|pre| + 1..|pre| + 1 + |a|] == a
    ensures s[|pre| + 2 + |a|..|pre| + 2 + |a| + |f|] == f
    ensures s[|pre| + 1..|pre| + 2 + |a| + |f|] == a + "." + f
  {
    assert s == pre + ("$" + (a + "." + f) + rest);
    assert s[|pre|..] == "$" + (a + "." + f) + rest;
    assert s[|pre| + 1..] == (a + "." + f) + rest;
  }

  /** A run of the digits of `d` placed at `i` and followed by a non-digit (or the end) ends after `d`. */
  lemma DigitsAt(s: string, i: nat, d: string)
    requires i + |d| <= |s| && AllDigits(d) && s[i..i + |d|] == d
    requires i + |d| == |s| || !IsDigit(s[i + |d|])
    ensures DigitRun(s, i) == i + |d|
  {
    forall k | i <= k < i + |d|
      ensures IsDigit(s[k])
    {
      assert s[k] == s[i..i + |d|][k - i];
    }
    DigitRunIs(s, i, i + |d|);
  }

  /** Where the pattern matches on `pre + "$" + a + "." + f + rest`, and what it captures. */
  lemma DollarMatch(pre: string, a: string, f: string, rest: string)
    requires AllDigits(a) && AllDigits(f)
    requires rest == [] || !IsDigit(rest[0])
    requires pre == [] || !IsWordChar(pre[|pre| - 1])
    ensures MatchAt(pre + "$" + a + "." + f + rest, |pre|)
    ensures MatchEnd(pre + "$" + a + "." + f + rest, |pre|) == |pre| + 2 + |a| + |f|
    ensures (pre + "$" + a + "." + f + rest)[|pre| + 1..|pre| + 2 + |a| + |f|] == a + "." + f
  {
    var s := pre + "$" + a + "." + f + rest;
    var i, j, e := |pre|, |pre| + 1 + |a|, |pre| + 2 + |a| + |f|;
    DollarLayout(s, pre, a, f, rest);
    DollarSlices(s, pre, a, f, rest);
    DigitsAt(s, i + 1, a);
    DigitsAt(s, j + 1, f);
    MatchAtPos(s, i, j, e);
  }

  /** The pattern matches at `i` when `$`, a digit run ending at the `.` at `j`, and a digit run ending at `e` follow. */
  lemma MatchAtPos(s: string, i: nat, j: nat, e: nat)
    requires i < j < |s| && s[i] == '$' && s[j] == '.'
    requires i == 0 || !IsWordChar(s[i - 1])
    requires DigitRun(s, i + 1) == j && DigitRun(s, j + 1) == e
    ensures MatchAt(s, i) && MatchEnd(s, i) == e
  {
  }

  /**
   * Text that does not convert, whose first match is `$a.f` followed by
   * `rest`, yields `a.f` rounded to cents; only the bare `$.` fails.
   */
  lemma FirstDollarAmount(pre: string, a: string, f: string, rest: string)
    requires ParseFloat(pre + "$" + a + "." + f + rest).None?
    requires AllDigits(a) && AllDigits(f)
    requires rest == [] || !IsDigit(rest[0])
    requires pre == [] || !IsWordChar(pre[|pre| - 1])
    requires forall j :: 0 <= j < |pre| ==> !MatchAt(pre + "$" + a + "." + f + rest, j)
    ensures a + f != [] ==>
      FloatPrices(Text(pre + "$" + a + "." + f + rest))
        == Amount(RoundCents(Decimal(DigitsValue(a) * Pow10(|f|) + DigitsValue(f), |f|)))
    ensures a + f == [] ==> FloatPrices(Text(pre + "$" + a + "." + f + rest)) == PriceError
  {
    var s := pre + "$" + a + "." + f + rest;
    DollarMatch(pre, a, f, rest);
    FirstMatchAmount(s, |pre|, a, f);
  }

  /** Unconvertible text whose leftmost match captures `a.f` yields `a.f` rounded; only the bare `$.` fails. */
  lemma FirstMatchAmount(s: string, i: nat, a: string, f: string)
    requires ParseFloat(s).None? && MatchAt(s, i)
    requires forall j :: 0 <= j < i ==> !MatchAt(s, j)
    requires AllDigits(a) && AllDigits(f) && s[i + 1..MatchEnd(s, i)] == a + "." + f
    ensures a + f != [] ==>
      FloatPrices(Text(s)) == Amount(RoundCents(Decimal(DigitsValue(a) * Pow10(|f|) + DigitsValue(f), |f|)))
    ensures a + f == [] ==> FloatPrices(Text(s)) == PriceError
  {
    FirstMatchIs(s, i);
    assert FloatPrices(Text(s)) == MatchedAmount(s, i);
    if a + f != [] {
      ParsePointed(a, f);
      var d := Decimal(DigitsValue(a + f), |f|);
      assert ParseFloat(s[i + 1..MatchEnd(s, i)]) == Some(d);
      assert d == Decimal(DigitsValue(a) * Pow10(|f|) + DigitsValue(f), |f|);
    } else {
      assert a + "." + f == ".";
      BareDotRejected();
    }
  }

  /** The search finds the leftmost match. */
  lemma FirstMatchIs(s: string, i: nat)
    requires MatchAt(s, i)
    requires forall j :: 0 <= j < i ==> !MatchAt(s, j)
    ensures SearchDollar(s, 0) == Some(i)
  {
    var r := SearchDollar(s, 0);
    assert r.None? ==> !MatchAt(s, i);
    assert r.Some? ==> r.value <= i;
  }

  /** The text after the `$` of a match splits into digits, the point, and digits. */
  lemma MatchSplits(s: string, i: nat, j: nat, e: nat)
    requires MatchAt(s, i) && j == DigitRun(s, i + 1) && e == MatchEnd(s, i)
    ensures s[i + 1..e] == s[i + 1..j] + "." + s[j + 1..e]
    ensures AllDigits(s[i + 1..j]) && AllDigits(s[j + 1..e])
  {
    DigitRunSpec(s, i + 1);
    DigitRunSpec(s, j + 1);
    assert s[i + 1..e] == s[i + 1..j] + [s[j]] + s[j + 1..e];
    var a, f := s[i + 1..j], s[j + 1..e];
    forall k | 0 <= k < |a| ensures IsDigit(a[k]) {
      assert a[k] == s[i + 1 + k];
    }
    forall k | 0 <= k < |f| ensures IsDigit(f[k]) {
      assert f[k] == s[j + 1 + k];
    }
  }

  /**
   * A value that is present never becomes NaN, and the only failing input is
   * unconvertible text whose first match is the bare `$.`.
   */
  lemma PresentNeverNaN(v: RawPrice)
    requires !v.Absent? && !v.NotANumber?
    ensures FloatPrices(v) != NaN
    ensures FloatPrices(v) == PriceError <==>
      v.Text? && ParseFloat(v.s).None? && SearchDollar(v.s, 0).Some?
      && MatchEnd(v.s, SearchDollar(v.s, 0).value) == SearchDollar(v.s, 0).value + 2
  {
    if v.Text? && ParseFloat(v.s).None? && SearchDollar(v.s, 0).Some? {
      var s, i := v.s, SearchDollar(v.s, 0).value;
      var j := DigitRun(s, i + 1);
      MatchSplits(s, i, j, MatchEnd(s, i));
      var a, f := s[i + 1..j], s[j + 1..MatchEnd(s, i)];
      if a + f != [] {
        ParsePointed(a, f);
      } else {
        assert a + "." + f == ".";
        BareDotRejected();
      }
    }
  }
}
