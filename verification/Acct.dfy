/**
 The number encoders of process accounting, kernel/acct.c.

 comp_t and comp2_t keep a mantissa and an exponent: the value is shifted right until it fits the mantissa and rounded
 to nearest. encode_float() makes an IEEE 754 binary32 value and truncates.
 */
module Acct {
  import opened Arith

  // ----- powers

  function Pow(b: nat, e: nat): (p: nat)
    requires b > 0
    ensures p > 0
  {
    if e == 0 then 1 else MulPos(b, Pow(b, e - 1)); Pow(b, e - 1) * b
  }

  lemma MulPos(a: nat, b: nat)
    requires a > 0 && b > 0
    ensures a * b > 0 && b * a > 0
  {
  }

  lemma {:induction false} PowGrows(b: nat, d: nat, e: nat)
    requires b >= 2 && d < e
    ensures Pow(b, d) * b <= Pow(b, e) && Pow(b, d) < Pow(b, e)
  {
    if d == e - 1 {
      MulMono(2, b, Pow(b, d));
    } else {
      PowGrows(b, d, e - 1);
      MulMono(2, b, Pow(b, e - 1));
    }
  }

  lemma MulAssoc(x: int, y: int, z: int)
    ensures x * (y * z) == x * y * z
  {
  }

  lemma {:induction false} PowAdd(b: nat, d: nat, e: nat)
    requires b > 0
    ensures Pow(b, d + e) == Pow(b, d) * Pow(b, e)
  {
    if e > 0 {
      PowAdd(b, d, e - 1);
      MulAssoc(Pow(b, d), Pow(b, e - 1), b);
    }
  }

  // ----- scaling and rounding

  /** How often the value is divided by the base before it fits a mantissa of at most f. */
  function Scale(v: nat, b: nat, f: nat): nat
    requires b >= 2
  {
    if v <= f || v == 0 then 0 else DivLess(v, b); 1 + Scale(v / b, b, f)
  }

  lemma DivLess(v: nat, b: nat)
    requires v > 0 && b >= 2
    ensures v / b < v
  {
    DivFloor(v, b);
    if v / b >= 1 {
      MulMono(2, b, v / b);
    }
  }

  /** v in units of u, rounded to the nearest, halves up. */
  function Nearest(v: nat, u: nat): nat
    requires u > 0
  {
    (v + u / 2) / u
  }

  lemma NearestIsClose(v: nat, u: nat)
    requires u > 0
    ensures 2 * (Nearest(v, u) * u - v) <= u && 2 * (v - Nearest(v, u) * u) <= u
  {
    DivFloor(v + u / 2, u);
  }

  lemma DivDiv(v: nat, u: nat, b: nat)
    requires u > 0 && b > 0
    ensures u * b > 0 && v / (u * b) == v / u / b
  {
    MulPos(u, b);
    var p := v / u;
    QuotientOfParts(v, p, p / b, p % b, v % u, u, b);
  }

  lemma QuotientOfParts(v: nat, p: nat, q: nat, s: nat, r: nat, u: nat, b: nat)
    requires p == q * b + s && v == p * u + r && s < b && r < u && u * b > 0
    ensures v / (u * b) == q
  {
    TwoDigits(q, s, r, u, b);
    QuotientUnique(v, u * b, q, s * u + r);
  }

  lemma TwoDigits(q: nat, s: nat, r: nat, u: nat, b: nat)
    requires s < b && r < u
    ensures (q * b + s) * u + r == q * (u * b) + (s * u + r) && s * u + r < u * b
  {
    assert (q * b + s) * u == q * (u * b) + s * u;
    MulMono(s, b - 1, u);
    assert (b - 1) * u == u * b - u;
  }

  lemma AddMultiple(v: nat, u: nat, k: nat)
    requires u > 0
    ensures (v + k * u) / u == v / u + k
  {
    assert (v / u + k) * u == v / u * u + k * u;
    QuotientUnique(v + k * u, u, v / u + k, v % u);
  }

  /** Looking at the last digit shifted out is rounding to nearest. */
  lemma RoundByDigit(v: nat, b: nat, e: nat)
    requires b >= 2 && b % 2 == 0 && e > 0
    ensures v / Pow(b, e) == v / Pow(b, e - 1) / b
    ensures Nearest(v, Pow(b, e)) == v / Pow(b, e) + (if v / Pow(b, e - 1) % b >= b / 2 then 1 else 0)
  {
    var u := Pow(b, e - 1);
    DivDiv(v, u, b);
    var h := b / 2;
    assert u * b / 2 == h * u by {
      assert u * b == 2 * (h * u);
    }
    DivDiv(v + h * u, u, b);
    AddMultiple(v, u, h);
    HalfUp(v / u, b);
  }

  lemma HalfUp(p: nat, b: nat)
    requires b >= 2 && b % 2 == 0
    ensures (p + b / 2) / b == p / b + (if p % b >= b / 2 then 1 else 0)
  {
    var q, s := p / b, p % b;
    assert p == q * b + s;
    if s >= b / 2 {
      assert (q + 1) * b == q * b + b;
      QuotientUnique(p + b / 2, b, q + 1, s - b / 2);
    } else {
      QuotientUnique(p + b / 2, b, q, s + b / 2);
    }
  }

  /** The scaled value fits, and one step earlier it did not. */
  lemma {:induction false} ScaleFits(v: nat, b: nat, f: nat)
    requires b >= 2
    ensures v / Pow(b, Scale(v, b, f)) <= f
    ensures Scale(v, b, f) > 0 ==> v / Pow(b, Scale(v, b, f) - 1) > f
    decreases v
  {
    if !(v <= f || v == 0) {
      DivLess(v, b);
      ScaleFits(v / b, b, f);
      var s := Scale(v / b, b, f);
      Commuted(v, b, s);
      if s > 0 {
        Commuted(v, b, s - 1);
      }
    }
  }

  lemma Commuted(v: nat, b: nat, e: nat)
    requires b >= 2
    ensures v / b / Pow(b, e) == v / Pow(b, e + 1)
  {
    DivDiv(v, b, Pow(b, e));
  }

  lemma {:induction false} ScaleMono(v: nat, w: nat, b: nat, f: nat)
    requires b >= 2 && v <= w
    ensures Scale(v, b, f) <= Scale(w, b, f)
    decreases v
  {
    if !(v <= f || v == 0) {
      DivLess(v, b);
      DivMono(v, w, b);
      ScaleMono(v / b, w / b, b, f);
    }
  }

  /** One turn of the shift loops. */
  lemma ShiftOnce(v: nat, b: nat, f: nat, e: nat)
    requires b >= 2 && b % 2 == 0
    ensures var x := v / Pow(b, e);
            && x / b == v / Pow(b, e + 1)
            && Nearest(v, Pow(b, e + 1)) == x / b + (if x % b >= b / 2 then 1 else 0)
            && (x > f ==> Scale(x, b, f) == 1 + Scale(x / b, b, f))
  {
    hide Nearest;
    RoundByDigit(v, b, e + 1);
  }

  lemma ScaleDone(v: nat, b: nat, f: nat)
    requires b >= 2 && v <= f
    ensures Scale(v, b, f) == 0
  {
  }

  /** v rounded to the kept precision: the mantissa, which may have grown to f + 1. */
  function Mantissa(v: nat, b: nat, f: nat): nat
    requires b >= 2
  {
    Nearest(v, Pow(b, Scale(v, b, f)))
  }

  /** The value that the encoding stands for. */
  function Kept(v: nat, b: nat, f: nat): nat
    requires b >= 2
  {
    Mantissa(v, b, f) * Pow(b, Scale(v, b, f))
  }

  lemma MantissaBounds(v: nat, b: nat, f: nat)
    requires b >= 2 && b % 2 == 0 && f >= 1 && (f + 1) % b == 0
    ensures Mantissa(v, b, f) <= f + 1
    ensures Scale(v, b, f) == 0 ==> Mantissa(v, b, f) == v <= f
    ensures Scale(v, b, f) > 0 ==> (f + 1) / b <= Mantissa(v, b, f)
  {
    hide Nearest;
    var s := Scale(v, b, f);
    ScaleFits(v, b, f);
    if s > 0 {
      RoundByDigit(v, b, s);
      DivMono(f + 1, v / Pow(b, s - 1), b);
    } else {
      NearestOne(v);
    }
  }

  lemma NearestOne(v: nat)
    ensures Nearest(v, 1) == v
  {
  }

  lemma KeptMono(v: nat, w: nat, b: nat, f: nat)
    requires b >= 2 && b % 2 == 0 && f >= 1 && (f + 1) % b == 0 && v <= w
    ensures Scale(v, b, f) <= Scale(w, b, f)
    ensures Scale(v, b, f) == Scale(w, b, f) ==> Mantissa(v, b, f) <= Mantissa(w, b, f)
    ensures Kept(v, b, f) <= Kept(w, b, f)
  {
    hide Scale, Pow;
    ScaleMono(v, w, b, f);
    var s, s' := Scale(v, b, f), Scale(w, b, f);
    var m, m' := Mantissa(v, b, f), Mantissa(w, b, f);
    if s == s' {
      DivMono(v + Pow(b, s) / 2, w + Pow(b, s) / 2, Pow(b, s));
      MulMono(m, m', Pow(b, s));
    } else {
      Kept2(m, m', b, f, s, s') by {
        MantissaBounds(v, b, f);
        MantissaBounds(w, b, f);
      }
    }
  }

  lemma Kept2(m: nat, m': nat, b: nat, f: nat, s: nat, s': nat)
    requires b >= 2 && (f + 1) % b == 0 && m <= f + 1 && (f + 1) / b <= m' && s < s'
    ensures m * Pow(b, s) <= m' * Pow(b, s')
  {
    hide Pow;
    var k := (f + 1) / b;
    assert f + 1 == k * b;
    PowGrows(b, s, s');
    MulMono(m, k * b, Pow(b, s));
    MulMono(Pow(b, s) * b, Pow(b, s'), k);
    assert k * (Pow(b, s) * b) == k * b * Pow(b, s);
    MulMono(k, m', Pow(b, s'));
  }

  lemma {:induction false} ScaleIs(v: nat, b: nat, f: nat, e: nat)
    requires b >= 2 && e > 0 && v / Pow(b, e) <= f < v / Pow(b, e - 1)
    ensures Scale(v, b, f) == e
    decreases e
  {
    ScaleFits(v, b, f);
    var s := Scale(v, b, f);
    if s < e {
      FitsFurther(v, b, s, e - 1);
    } else if s > e {
      FitsFurther(v, b, e, s - 1);
    }
  }

  lemma FitsFurther(v: nat, b: nat, d: nat, e: nat)
    requires b >= 2 && d <= e
    ensures v / Pow(b, e) <= v / Pow(b, d)
  {
    if d < e {
      PowGrows(b, d, e);
    }
    DivFloor(v, Pow(b, e));
    MulMono(Pow(b, d), Pow(b, e), v / Pow(b, e));
    DivAtLeast(v, Pow(b, d), v / Pow(b, e));
  }

  /** A number with a full mantissa needs no rounding. */
  lemma {:induction false} ScaleOfExact(m: nat, b: nat, f: nat, e: nat)
    requires b >= 2 && f >= 1 && (f + 1) % b == 0 && (f + 1) / b <= m <= f
    ensures Scale(m * Pow(b, e), b, f) == e && Mantissa(m * Pow(b, e), b, f) == m
  {
    hide Nearest, Pow;
    PowZero(b, m);
    if e > 0 {
      ScaleOfExact(m, b, f, e - 1);
      PowStep(b, e - 1);
      OneDigitMore(m, Pow(b, e - 1), b, f);
    }
    NearestOfMultiple(m, Pow(b, e));
  }

  lemma OneDigitMore(m: nat, p: nat, b: nat, f: nat)
    requires b >= 2 && (f + 1) % b == 0 && (f + 1) / b <= m && p > 0
    ensures m * (p * b) > f && m * (p * b) / b == m * p
  {
    assert m * (p * b) == m * p * b;
    MulMono(1, p, m);
    MulMono((f + 1) / b, m * p, b);
    MultipleMod(m * p, b);
  }

  lemma NearestOfMultiple(m: nat, u: nat)
    requires u > 0
    ensures Nearest(m * u, u) == m
  {
    QuotientUnique(m * u + u / 2, u, m, u / 2);
  }

  // ----- comp_t: 13 bits of mantissa, 3 bits of exponent to base 8

  const MAXFRACT: nat := 8191

  const COMP_LIMIT: nat := 17178820608 // MAXFRACT * 8^7 + 8^7 / 2

  /** Exponent and mantissa put together, before they are cut to 16 bits. */
  function CompCode(v: nat): nat
  {
    CompJoin(Scale(v, 8, MAXFRACT), Mantissa(v, 8, MAXFRACT))
  }

  /** A mantissa that rounding made too large is shifted once more. */
  function CompJoin(s: nat, m: nat): nat
  {
    if m > MAXFRACT then (s + 1) * 8192 + m / 8 else s * 8192 + m
  }

  lemma CompCodeIs(v: nat, s: nat, m: nat)
    requires s == Scale(v, 8, MAXFRACT) && m == Nearest(v, Pow(8, s))
    ensures CompCode(v) == CompJoin(s, m)
  {
  }

  lemma BitTwo(v: nat)
    ensures v / 4 % 2 == 1 <==> v % 8 >= 4
  {
  }

  function CompDecode(c: nat): nat { c % 8192 * Pow(8, c / 8192) }

  method EncodeComp(v: nat) returns (r: nat)
    ensures r == CompCode(v) % 65536
  {
    hide Nearest, Pow, Scale, CompCode;
    var value, exp, rnd := v, 0, false;
    PowZero(8, v);
    while value > MAXFRACT
      invariant value == v / Pow(8, exp) && exp + Scale(value, 8, MAXFRACT) == Scale(v, 8, MAXFRACT)
      invariant value + (if rnd then 1 else 0) == Nearest(v, Pow(8, exp))
      decreases value
    {
      ShiftOnce(v, 8, MAXFRACT, exp);
      BitTwo(value);
      rnd := value / 4 % 2 == 1; // the bit 1 << (EXPSIZE - 1)
      value := value / 8;
      exp := exp + 1;
    }
    ScaleDone(value, 8, MAXFRACT);
    ghost var m := value + if rnd then 1 else 0;
    assert CompCode(v) == CompJoin(exp, m) by {
      CompCodeIs(v, exp, m);
    }
    if rnd {
      value := value + 1;
      if value > MAXFRACT {
        value := value / 8;
        exp := exp + 1;
      }
    }
    r := (exp * 8192 + value) % 65536;
  }

  lemma PowZero(b: nat, v: nat)
    requires b > 0
    ensures Pow(b, 0) == 1 && v / Pow(b, 0) == v && Nearest(v, Pow(b, 0)) == v
  {
  }

  lemma CompParts(v: nat)
    ensures var e, m := CompCode(v) / 8192, CompCode(v) % 8192;
            && m * Pow(8, e) == Kept(v, 8, MAXFRACT)
            && (e > 0 ==> m >= 1024)
            && (Scale(v, 8, MAXFRACT) <= e <= Scale(v, 8, MAXFRACT) + 1)
            && (e == Scale(v, 8, MAXFRACT) + 1 ==> m == 1024)
  {
    hide Pow, Scale, Mantissa;
    MantissaBounds(v, 8, MAXFRACT);
    var s, m := Scale(v, 8, MAXFRACT), Mantissa(v, 8, MAXFRACT);
    if m > MAXFRACT {
      assert m == 8192;
      PowStep(8, s);
      assert CompCode(v) == (s + 1) * 8192 + 1024;
    }
  }

  lemma PowStep(b: nat, e: nat)
    requires b > 0
    ensures Pow(b, e + 1) == Pow(b, e) * b
  {
  }

  /** As long as the code fits 16 bits it decodes to the value rounded to nearest at the kept precision. */
  lemma CompWithinHalf(v: nat)
    ensures var u := Pow(8, Scale(v, 8, MAXFRACT));
            2 * (CompDecode(CompCode(v)) - v) <= u && 2 * (v - CompDecode(CompCode(v))) <= u
    ensures v <= MAXFRACT ==> CompCode(v) == CompDecode(CompCode(v)) == v
  {
    hide Pow, CompCode;
    CompParts(v);
    NearestIsClose(v, Pow(8, Scale(v, 8, MAXFRACT)));
    if v <= MAXFRACT {
      SmallCode(v);
    }
  }

  lemma SmallCode(v: nat)
    requires v <= MAXFRACT
    ensures CompCode(v) == CompDecode(CompCode(v)) == v
  {
    PowZero(8, v);
  }

  lemma CompMono(v: nat, w: nat)
    requires v <= w
    ensures CompCode(v) <= CompCode(w) && CompDecode(CompCode(v)) <= CompDecode(CompCode(w))
  {
    hide Pow, Scale, Mantissa;
    KeptMono(v, w, 8, MAXFRACT);
    CompParts(v);
    CompParts(w);
  }

  /** The values that fit 16 bits. */
  lemma CompFits(v: nat)
    ensures CompCode(v) < 65536 <==> v < COMP_LIMIT
  {
    hide Pow, Scale, Mantissa, CompCode, CompDecode;
    LastComp();
    if v < COMP_LIMIT {
      CompMono(v, COMP_LIMIT - 1);
    } else {
      CompMono(COMP_LIMIT, v);
    }
  }

  lemma LastComp()
    ensures CompCode(COMP_LIMIT - 1) == 65535 && CompCode(COMP_LIMIT) == 66560
  {
    ScaleIs(COMP_LIMIT - 1, 8, MAXFRACT, 7);
    ScaleIs(COMP_LIMIT, 8, MAXFRACT, 7);
    assert Pow(8, 3) == 512;
    assert Pow(8, 5) == 32768;
    assert Pow(8, 7) == 2097152;
  }

  /** What is stored stands for the rounded value exactly when the value is below the limit; above it the exponent is cut. */
  lemma CompExact(v: nat)
    ensures CompDecode(CompCode(v) % 65536) == Kept(v, 8, MAXFRACT) <==> v < COMP_LIMIT
  {
    hide Pow, Scale, Mantissa, CompCode, Kept;
    CompFits(v);
    CompParts(v);
    var c := CompCode(v);
    CutExponent(c);
    if c >= 65536 {
      CutIsLess(c % 8192, c / 8192);
    }
  }

  lemma CutExponent(c: nat)
    ensures c % 65536 / 8192 == c / 8192 % 8 && c % 65536 % 8192 == c % 8192
  {
  }

  lemma CutIsLess(m: nat, e: nat)
    requires m > 0 && e >= 8
    ensures m * Pow(8, e % 8) < m * Pow(8, e)
  {
    hide Pow;
    PowGrows(8, e % 8, e);
    MulMono(Pow(8, e % 8) + 1, Pow(8, e), m);
    assert m * (Pow(8, e % 8) + 1) == m * Pow(8, e % 8) + m;
  }

  /** Every code in normal form is the code of the value it stands for. */
  lemma CompRoundTrip(c: nat)
    requires c < 8192 || c % 8192 >= 1024
    ensures CompCode(CompDecode(c)) == c
  {
    hide Pow, Scale, Mantissa;
    var e, m := c / 8192, c % 8192;
    if e > 0 {
      ScaleOfExact(m, 8, MAXFRACT, e);
    } else {
      PowZero(8, m);
      SmallCode(m);
    }
  }

  // ----- comp2_t: 5 bits of exponent to base 2, 20 bits of mantissa of which the first is implied

  const MAXFRACT2: nat := 1048575

  const COMP2_MAX: nat := 16777215 // 2^24 - 1

  const COMP2_LIMIT: nat := 1125899369971712 // (2^20 - 1) * 2^30 + 2^29

  function Comp2Code(v: nat): nat
  {
    Comp2Join(Scale(v, 2, MAXFRACT2), Mantissa(v, 2, MAXFRACT2))
  }

  /** The leading bit of the mantissa adds one to the exponent field; codes stop at the largest. */
  function Comp2Join(s: nat, m: nat): nat
  {
    var c := s * 524288 + m;
    if c > COMP2_MAX then COMP2_MAX else c
  }

  function Comp2Decode(c: nat): nat
  {
    if c < 524288 then c else (524288 + c % 524288) * Pow(2, c / 524288 - 1)
  }

  method EncodeComp2(v: nat) returns (r: nat)
    ensures r == Comp2Code(v)
  {
    hide Shifted2, Comp2Code, Comp2Pack;
    var value: nat, exp, rnd := v, if v > MAXFRACT2 / 2 then 1 else 0, false;
    ghost var s: nat := 0;
    Shift2Begins(v);
    while value > MAXFRACT2
      invariant Shifted2(v, value, s, rnd) && exp == s + if v > MAXFRACT2 / 2 then 1 else 0
      decreases value
    {
      Shift2Goes(v, value, s, rnd);
      rnd := value % 2 == 1;
      value := value / 2;
      exp, s := exp + 1, s + 1;
    }
    Shift2Ends(v, value, s, rnd);
    r := Comp2Pack(value, exp, rnd);
  }

  /** After s shifts: what is left of v, and whether the last bit shifted out rounds it up. */
  ghost predicate Shifted2(v: nat, value: nat, s: nat, rnd: bool)
  {
    && value == v / Pow(2, s) && s + Scale(value, 2, MAXFRACT2) == Scale(v, 2, MAXFRACT2)
    && value + (if rnd then 1 else 0) == Nearest(v, Pow(2, s))
    && if v > MAXFRACT2 / 2 then value > MAXFRACT2 / 2 else value == v && !rnd && s == 0
  }

  lemma Shift2Begins(v: nat)
    ensures Shifted2(v, v, 0, false)
  {
    hide Nearest, Pow, Scale;
    PowZero(2, v);
  }

  lemma Shift2Goes(v: nat, value: nat, s: nat, rnd: bool)
    requires Shifted2(v, value, s, rnd) && value > MAXFRACT2
    ensures Shifted2(v, value / 2, s + 1, value % 2 == 1)
  {
    hide Nearest, Pow, Scale;
    ShiftOnce(v, 2, MAXFRACT2, s);
  }

  lemma Shift2Ends(v: nat, value: nat, s: nat, rnd: bool)
    requires Shifted2(v, value, s, rnd) && value <= MAXFRACT2
    ensures Comp2Pack(value, s + (if v > MAXFRACT2 / 2 then 1 else 0), rnd) == Comp2Code(v)
  {
    hide Nearest, Pow, Scale, Comp2Code, Comp2Pack, Comp2Join;
    ScaleDone(value, 2, MAXFRACT2);
    Comp2CodeIs(v, s, value + if rnd then 1 else 0);
    Comp2Packs(s, value, rnd, v > MAXFRACT2 / 2);
  }

  /** Rounding up, carrying, and putting the fields together. */
  function Comp2Pack(value: nat, exp: nat, rnd: bool): nat
  {
    var carry := rnd && value + 1 > MAXFRACT2;
    var value' := if carry then (value + 1) / 2 else if rnd then value + 1 else value;
    var exp' := if carry then exp + 1 else exp;
    if exp' > 31 then COMP2_MAX else value' % 524288 + exp' * 524288
  }

  lemma Comp2Packs(s: nat, value: nat, rnd: bool, high: bool)
    requires value <= MAXFRACT2 && (high ==> value > MAXFRACT2 / 2) && (!high ==> value <= MAXFRACT2 / 2 && !rnd && s == 0)
    ensures Comp2Pack(value, s + (if high then 1 else 0), rnd) == Comp2Join(s, value + if rnd then 1 else 0)
  {
  }

  lemma Comp2CodeIs(v: nat, s: nat, m: nat)
    requires s == Scale(v, 2, MAXFRACT2) && m == Nearest(v, Pow(2, s))
    ensures Comp2Code(v) == Comp2Join(s, m)
  {
  }

  lemma Comp2Mono(v: nat, w: nat)
    requires v <= w
    ensures Comp2Code(v) <= Comp2Code(w)
  {
    hide Pow, Scale, Mantissa;
    KeptMono(v, w, 2, MAXFRACT2);
    MantissaBounds(v, 2, MAXFRACT2);
    MantissaBounds(w, 2, MAXFRACT2);
  }

  lemma LastComp2()
    ensures Comp2Code(COMP2_LIMIT - 1) == COMP2_MAX
    ensures Mantissa(COMP2_LIMIT - 1, 2, MAXFRACT2) == MAXFRACT2 && Scale(COMP2_LIMIT - 1, 2, MAXFRACT2) == 30
    ensures Mantissa(COMP2_LIMIT, 2, MAXFRACT2) == MAXFRACT2 + 1 && Scale(COMP2_LIMIT, 2, MAXFRACT2) == 30
  {
    PowTwo30();
    ScaleIs(COMP2_LIMIT - 1, 2, MAXFRACT2, 30);
    ScaleIs(COMP2_LIMIT, 2, MAXFRACT2, 30);
  }

  lemma PowTwo30()
    ensures Pow(2, 29) == 536870912 && Pow(2, 30) == 1073741824
  {
    assert Pow(2, 5) == 32;
    PowAdd(2, 5, 5);
    PowAdd(2, 10, 10);
    PowAdd(2, 20, 9);
    PowAdd(2, 20, 10);
    PowAdd(2, 5, 4);
  }

  lemma Comp2Parts(v: nat)
    ensures var c := Scale(v, 2, MAXFRACT2) * 524288 + Mantissa(v, 2, MAXFRACT2);
            Comp2Decode(c) == Kept(v, 2, MAXFRACT2)
  {
    hide Pow, Scale, Mantissa;
    MantissaBounds(v, 2, MAXFRACT2);
    var s, m := Scale(v, 2, MAXFRACT2), Mantissa(v, 2, MAXFRACT2);
    PowZero(2, v);
    PowStep(2, s);
  }

  /** Below the limit the code stands for the value rounded to nearest; from the limit on it stays at the largest value. */
  lemma Comp2Exact(v: nat)
    ensures v < COMP2_LIMIT ==> Comp2Decode(Comp2Code(v)) == Kept(v, 2, MAXFRACT2)
    ensures v < COMP2_LIMIT ==>
              var u := Pow(2, Scale(v, 2, MAXFRACT2)); var d := Comp2Decode(Comp2Code(v)); 2 * (d - v) <= u && 2 * (v - d) <= u
    ensures v >= COMP2_LIMIT ==> Comp2Code(v) == COMP2_MAX && Comp2Decode(Comp2Code(v)) == MAXFRACT2 * Pow(2, 30) < v
  {
    hide Pow, Scale, Comp2Decode;
    LastComp2();
    Comp2Parts(v);
    PowTwo30();
    NearestIsClose(v, Pow(2, Scale(v, 2, MAXFRACT2)));
    if v < COMP2_LIMIT {
      KeptMono(v, COMP2_LIMIT - 1, 2, MAXFRACT2);
      MantissaBounds(v, 2, MAXFRACT2);
    } else {
      Comp2Mono(COMP2_LIMIT - 1, v);
      Comp2Largest();
    }
  }

  lemma Comp2Largest()
    ensures Comp2Decode(COMP2_MAX) == MAXFRACT2 * Pow(2, 30)
  {
    hide Pow;
  }

  lemma Comp2RoundTrip(c: nat)
    requires c <= COMP2_MAX
    ensures Comp2Code(Comp2Decode(c)) == c
  {
    hide Pow, Scale, Mantissa;
    if c < 1048576 {
      PowZero(2, c);
      SmallCode2(c);
    } else {
      ScaleOfExact(524288 + c % 524288, 2, MAXFRACT2, c / 524288 - 1);
    }
  }

  lemma SmallCode2(v: nat)
    requires v <= MAXFRACT2
    ensures Comp2Code(v) == v
  {
    PowZero(2, v);
  }

  // ----- encode_float()

  /** Powers of two with any exponent. */
  function Exp2(n: int): (r: real)
    ensures r > 0.0
    decreases if n < 0 then -n else n
  {
    if n == 0 then 1.0 else if n > 0 then 2.0 * Exp2(n - 1) else Exp2(n + 1) / 2.0
  }

  lemma Exp2Step(n: int)
    ensures Exp2(n + 1) == 2.0 * Exp2(n)
  {
  }

  lemma {:induction false} Exp2Add(a: int, k: nat)
    ensures Exp2(a + k) == Exp2(a) * Exp2(k)
  {
    hide Exp2;
    if k == 0 {
      Exp2Zero();
    } else {
      Exp2Add(a, k - 1);
      Exp2Step(a + k - 1);
      Exp2Step(k - 1);
      Regroup(Exp2(a), Exp2(k - 1));
    }
  }

  lemma Regroup(x: real, y: real)
    ensures x * (2.0 * y) == 2.0 * (x * y)
  {
  }

  lemma {:induction false} Exp2IsPow(k: nat)
    ensures Exp2(k) == Pow(2, k) as real
  {
    if k > 0 {
      Exp2IsPow(k - 1);
      Exp2Step(k - 1);
    }
  }

  const HIDDEN: nat := 8388608 // 2^23

  const TOP: nat := 9223372036854775808 // 2^63

  /** The significand of a positive normal binary32 number, and the exponent that goes with it as a whole number. */
  function Significand(bits: nat): nat { HIDDEN + bits % HIDDEN }

  function Unit(bits: nat): real { Exp2(bits / HIDDEN - 150) }

  /** The value of a positive normal binary32 number, IEEE 754-2008 section 3.4. */
  function FloatValue(bits: nat): real { Significand(bits) as real * Unit(bits) }

  /** encode_float() on 64-bit values: the value lies from the float up to the next one. */
  method EncodeFloat(v: nat) returns (r: nat)
    requires v < 2 * TOP
    ensures v == 0 ==> r == 0
    ensures v > 0 ==> 127 <= r / HIDDEN <= 190 && FloatValue(r) <= v as real < FloatValue(r) + Unit(r)
  {
    hide Pow, Exp2, FloatValue, Unit;
    if v == 0 {
      return 0;
    }
    var value, exp := v, 190;
    PowZero(2, v);
    while value < TOP
      invariant 0 < value < 2 * TOP && exp <= 190 && value == v * Pow(2, 190 - exp)
      decreases 2 * TOP - value
    {
      PowStep(2, 190 - exp);
      assert v * (Pow(2, 190 - exp) * 2) == v * Pow(2, 190 - exp) * 2;
      value := value * 2;
      exp := exp - 1;
    }
    ShiftBound(v, 190 - exp);
    var u := value / 1099511627776 % HIDDEN; // bits 40 to 62
    r := u + exp * HIDDEN;
    FloatBracket(v, 190 - exp, r);
  }

  lemma PowTwo64()
    ensures Pow(2, 40) == 1099511627776 && Pow(2, 63) == TOP && Pow(2, 64) == 2 * TOP
  {
    PowTwo30();
    PowAdd(2, 30, 30);
    PowAdd(2, 60, 3);
    PowAdd(2, 60, 4);
    PowAdd(2, 5, 5);
    PowAdd(2, 30, 10);
  }

  lemma ShiftBound(v: nat, k: nat)
    requires v > 0 && v * Pow(2, k) < 2 * TOP
    ensures k <= 63
  {
    hide Pow;
    PowTwo64();
    MulMono(1, v, Pow(2, k));
    if k > 64 {
      PowGrows(2, 64, k);
    }
  }

  lemma FloatBracket(v: nat, k: nat, r: nat)
    requires k <= 63 && TOP <= v * Pow(2, k) < 2 * TOP
    requires r == v * Pow(2, k) / 1099511627776 % HIDDEN + (190 - k) * HIDDEN
    ensures r / HIDDEN == 190 - k && FloatValue(r) <= v as real < FloatValue(r) + Unit(r)
  {
    hide Pow, Exp2;
    var m := v * Pow(2, k) / 1099511627776;
    assert HIDDEN <= m < 2 * HIDDEN;
    assert r / HIDDEN == 190 - k && Significand(r) == m;
    PowTwo64();
    Exp2IsPow(40);
    Exp2IsPow(k);
    Exp2Add(0 - k, 40);
    Exp2Add(0 - k, k);
    Exp2Zero();
    Scaled(v as real, Pow(2, k) as real, Exp2(0 - k), m as real, 1099511627776.0);
    assert (v * Pow(2, k)) as real == v as real * Pow(2, k) as real;
    DivFloor(v * Pow(2, k), 1099511627776);
  }

  lemma Exp2Zero()
    ensures Exp2(0) == 1.0
  {
  }

  lemma Scaled(v: real, p: real, i: real, m: real, c: real)
    requires i > 0.0 && i * p == 1.0
    ensures m * c <= v * p ==> m * (i * c) <= v
    ensures v * p < (m + 1.0) * c ==> v < m * (i * c) + i * c
  {
    assert v * p * i == v by {
      assert v * p * i == v * (i * p);
    }
    assert m * c * i == m * (i * c);
    assert (m + 1.0) * c * i == m * (i * c) + i * c;
    if m * c <= v * p {
      RealMono(m * c, v * p, i);
    }
    if v * p < (m + 1.0) * c {
      assert ((m + 1.0) * c - v * p) * i > 0.0;
      assert ((m + 1.0) * c - v * p) * i == (m + 1.0) * c * i - v * p * i;
    }
  }

  lemma RealMono(a: real, b: real, c: real)
    requires a <= b && c >= 0.0
    ensures a * c <= b * c
  {
    assert (b - a) * c >= 0.0;
    assert (b - a) * c == b * c - a * c;
  }

  /** Truncation toward zero: no number with a 24-bit significand, whatever its exponent, lies between the float and the value. */
  lemma TowardZero(v: real, r: nat, m: nat, j: int)
    requires FloatValue(r) <= v < FloatValue(r) + Unit(r)
    requires m < 2 * HIDDEN && m as real * Exp2(j) <= v
    ensures m as real * Exp2(j) <= FloatValue(r)
  {
    hide Exp2;
    var q := r / HIDDEN - 150;
    if j >= q {
      Coarse(Significand(r), q, m, j, v);
    } else {
      Fine(Significand(r), q, m, j);
    }
  }

  lemma Coarse(s: nat, q: int, m: nat, j: int, v: real)
    requires j >= q && m as real * Exp2(j) <= v < s as real * Exp2(q) + Exp2(q)
    ensures m as real * Exp2(j) <= s as real * Exp2(q)
  {
    hide Exp2, Pow;
    Exp2Multiple(q, j);
    CoarseAt(s, Exp2(q), m, Pow(2, j - q), Exp2(j), v);
  }

  lemma CoarseAt(s: nat, u: real, m: nat, p: nat, x: real, v: real)
    requires u > 0.0 && x == p as real * u && m as real * x <= v < s as real * u + u
    ensures m as real * x <= s as real * u
  {
    Multiples(m, p, m * p, u, x);
    NoneBetween(m * p, s, u, m as real * x);
  }

  lemma {:induction false} Exp2Multiple(q: int, j: int)
    requires j >= q
    ensures Exp2(j) == Pow(2, j - q) as real * Exp2(q)
    decreases j - q
  {
    hide Exp2, Pow;
    if j == q {
      PowZero(2, 0);
    } else {
      Exp2Multiple(q, j - 1);
      Exp2Step(j - 1);
      PowStep(2, j - 1 - q);
      var p := Pow(2, j - 1 - q);
      assert Pow(2, j - q) as real == 2.0 * p as real;
      assert 2.0 * (p as real * Exp2(q)) == 2.0 * p as real * Exp2(q);
    }
  }

  lemma Multiples(m: nat, p: nat, n: nat, u: real, x: real)
    requires n == m * p && x == p as real * u
    ensures m as real * x == n as real * u
  {
    assert n as real == m as real * p as real;
  }

  /** No multiple of u lies strictly between two successive ones. */
  lemma NoneBetween(n: nat, s: nat, u: real, y: real)
    requires u > 0.0 && y == n as real * u && y < s as real * u + u
    ensures y <= s as real * u
  {
    assert (s + 1) as real * u == s as real * u + u;
    if n > s {
      RealMono((s + 1) as real, n as real, u);
    } else {
      RealMono(n as real, s as real, u);
    }
  }

  lemma {:induction false} Exp2Mono(a: int, b: int)
    requires a <= b
    ensures Exp2(a) <= Exp2(b)
    decreases b - a
  {
    hide Exp2;
    if a < b {
      Exp2Mono(a, b - 1);
      Exp2Step(b - 1);
    }
  }

  lemma Fine(s: nat, q: int, m: nat, j: int)
    requires j < q && m < 2 * HIDDEN <= 2 * s
    ensures m as real * Exp2(j) <= s as real * Exp2(q)
  {
    hide Exp2;
    Exp2Mono(j + 1, q);
    Exp2Step(j);
    Doubled(m as real, s as real, Exp2(j), Exp2(q));
  }

  lemma Doubled(m: real, s: real, x: real, y: real)
    requires m <= 2.0 * s && s >= 0.0 && x > 0.0 && 2.0 * x <= y
    ensures m * x <= s * y
  {
    RealMono(m, 2.0 * s, x);
    RealMono(2.0 * x, y, s);
    assert 2.0 * s * x == 2.0 * x * s;
    assert y * s == s * y;
  }

  /** The relative error is below 2^-23. */
  lemma RelativeError(v: real, r: nat)
    requires FloatValue(r) <= v < FloatValue(r) + Unit(r)
    ensures (v - FloatValue(r)) * HIDDEN as real < v
  {
    RealMono(HIDDEN as real, Significand(r) as real, Unit(r));
  }
}
