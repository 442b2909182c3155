/** Conversion of binary32 to binary16 by rounding to nearest, ties to even
    (IEEE 754-2019, section 4.3.1). Finite values are exact integers in units
    of 2^-149, the smallest binary32 subnormal. */
module HalfFloat {

  function Pow2(k: nat): (p: nat)
    ensures p >= 1
  {
    if k == 0 then 1 else 2 * Pow2(k - 1)
  }

  lemma {:induction false} Pow2Add(j: nat, k: nat)
    ensures Pow2(j + k) == Pow2(j) * Pow2(k)
    decreases j
  {
    if j > 0 {
      Pow2Add(j - 1, k);
    }
  }

  lemma {:induction false} Pow2Mono(j: nat, k: nat)
    requires j <= k
    ensures Pow2(j) <= Pow2(k)
    decreases k - j
  {
    if j < k {
      Pow2Mono(j + 1, k);
    }
  }

  const INFINITY16: nat := 0x7c00

  /** Significand and exponent fields of a binary16 magnitude. */
  function Significand(h: nat): nat {
    if h / 1024 == 0 then h % 1024 else 1024 + h % 1024
  }

  function Unit(h: nat): nat {
    Pow2(if h / 1024 == 0 then 125 else h / 1024 - 1 + 125)
  }

  /** Value of a binary16 magnitude; the code of infinity stands for 2^16, the
      next value after the largest finite one. */
  function Value16(h: nat): nat {
    Significand(h) * Unit(h)
  }

  function Exponent32(bits: nat): nat {
    bits / 0x80_0000 % 256
  }

  function Mantissa32(bits: nat): nat {
    bits % 0x80_0000
  }

  /** Magnitude of a finite binary32 number. */
  function Value32(bits: nat): nat {
    if Exponent32(bits) == 0 then Mantissa32(bits)
    else (0x80_0000 + Mantissa32(bits)) * Pow2(Exponent32(bits) - 1)
  }

  /** The two value functions by their laws: evenly spaced from zero up to twice the
      smallest normal number, then doubling with every step of the exponent; and
      the number one is the same in both. */
  lemma {:induction false} ValuesMean(bits: nat, h: nat)
    ensures bits < 0x100_0000 ==> Value32(bits) == bits
    ensures 0x80_0000 <= bits < 0x7f00_0000 ==> Value32(bits + 0x80_0000) == 2 * Value32(bits)
    ensures h < 2048 ==> Value16(h) == h * Pow2(125)
    ensures 1024 <= h <= 0x7800 ==> Value16(h + 1024) == 2 * Value16(h)
    ensures Value16(0x3c00) == Value32(0x3f80_0000) == Pow2(149)
  {
    hide Pow2;
    if 0x80_0000 <= bits < 0x7f00_0000 {
      DoubledSingle(bits);
    }
    if 1024 <= h <= 0x7800 {
      DoubledHalf(h);
    }
    FirstUnits();
    Pow2Add(23, 126);
    Pow2Add(10, 139);
  }

  lemma FirstUnits()
    ensures Pow2(0) == 1 && Pow2(10) == 1024 && Pow2(23) == 0x80_0000
  {
    assert Pow2(10) == 1024;
    Pow2Add(10, 10);
    Pow2Add(3, 20);
    assert Pow2(3) == 8;
  }

  lemma DoubledSingle(bits: nat)
    requires 0x80_0000 <= bits < 0x7f00_0000
    ensures Value32(bits + 0x80_0000) == 2 * Value32(bits)
  {
    var e, m := Exponent32(bits), Mantissa32(bits);
    assert Exponent32(bits + 0x80_0000) == e + 1 && Mantissa32(bits + 0x80_0000) == m;
    assert Pow2(e) == 2 * Pow2(e - 1);
    TimesTwo(0x80_0000 + m, Pow2(e - 1));
  }

  lemma DoubledHalf(h: nat)
    requires 1024 <= h <= 0x7800
    ensures Value16(h + 1024) == 2 * Value16(h)
  {
    assert (h + 1024) / 1024 == h / 1024 + 1 && (h + 1024) % 1024 == h % 1024;
    assert Pow2(h / 1024 + 125) == 2 * Pow2(h / 1024 - 1 + 125);
    TimesTwo(1024 + h % 1024, Pow2(h / 1024 - 1 + 125));
  }

  lemma TimesTwo(x: nat, y: nat)
    ensures x * (2 * y) == 2 * (x * y)
  {
  }

  function Distance(v: nat, w: nat): nat {
    if v <= w then w - v else v - w
  }

  /** h is a nearest binary16 magnitude to v, an even one if two are as near. */
  ghost predicate NearestEven(v: nat, h: nat) {
    && h <= INFINITY16
    && forall k :: 0 <= k <= INFINITY16 && k != h ==>
         Distance(v, Value16(h)) <= Distance(v, Value16(k))
         && (Distance(v, Value16(h)) == Distance(v, Value16(k)) ==> h % 2 == 0)
  }

  // ----- Neighbours ----------------------------------------------------

  lemma {:induction false} NextValue(h: nat)
    ensures Value16(h + 1) == Value16(h) + Unit(h)
  {
    if h % 1024 < 1023 {
      assert (h + 1) / 1024 == h / 1024 && (h + 1) % 1024 == h % 1024 + 1;
    } else {
      assert (h + 1) / 1024 == h / 1024 + 1 && (h + 1) % 1024 == 0;
      assert Unit(h + 1) == if h / 1024 == 0 then Unit(h) else 2 * Unit(h);
    }
  }

  lemma {:induction false} ValueIncreases(j: nat, k: nat)
    requires j < k
    ensures Value16(j) < Value16(k)
    decreases k - j
  {
    NextValue(j);
    if j + 1 < k {
      ValueIncreases(j + 1, k);
    }
  }

  /** Of two neighbours around v, the nearer one, or the even one of two equally
      near, is nearest of all. */
  lemma {:induction false} NeighbourIsNearest(v: nat, h: nat, r: nat)
    requires h < INFINITY16 && Value16(h) <= v <= Value16(h + 1)
    requires r == h || r == h + 1
    requires r == h ==> 2 * v < Value16(h) + Value16(h + 1) || (2 * v == Value16(h) + Value16(h + 1) && h % 2 == 0)
    requires r == h + 1 ==> 2 * v > Value16(h) + Value16(h + 1) || (2 * v == Value16(h) + Value16(h + 1) && h % 2 == 1)
    ensures NearestEven(v, r)
  {
    hide Value16;
    forall k | 0 <= k <= INFINITY16 && k != r
      ensures Distance(v, Value16(r)) <= Distance(v, Value16(k))
      ensures Distance(v, Value16(r)) == Distance(v, Value16(k)) ==> r % 2 == 0
    {
      if k < h {
        ValueIncreases(k, h);
      } else if k > h + 1 {
        ValueIncreases(h + 1, k);
      }
    }
  }

  /** Rounding a significand A + rem to a multiple of the step S. */
  lemma {:induction false} RoundStep(v: nat, h: nat, a: nat, rem: nat, s: nat, p: nat)
    requires h < INFINITY16 && p >= 1 && rem < 2 * s && s >= 1
    requires Value16(h) == a * p && Unit(h) == 2 * s * p && v == (a + rem) * p
    ensures NearestEven(v, if rem > s || (rem == s && h % 2 == 1) then h + 1 else h)
  {
    NextValue(h);
    var r := if rem > s || (rem == s && h % 2 == 1) then h + 1 else h;
    hide Value16, Unit;
    assert v == a * p + rem * p;
    Scale(rem, 2 * s, p);
    Scale(rem, s, p);
    Scale(s, rem, p);
    assert 2 * v == 2 * (a * p) + 2 * (rem * p);
    assert 2 * s * p == 2 * (s * p);
    NeighbourIsNearest(v, h, r);
  }

  lemma Scale(x: nat, y: nat, p: nat)
    requires p >= 1
    ensures x < y ==> x * p < y * p
    ensures x == y ==> x * p == y * p
    ensures x <= y ==> x * p <= y * p
  {
    if x < y {
      assert (y - x) * p >= 1;
      assert y * p == x * p + (y - x) * p;
    }
  }

  /** Rounding keeps the order of magnitudes. */
  lemma {:induction false} RoundingIsMonotone(v: nat, w: nat, h: nat, k: nat)
    requires NearestEven(v, h) && NearestEven(w, k) && v <= w
    ensures h <= k
  {
    hide Value16;
    if k < h {
      ValueIncreases(k, h);
      if k + 1 < h {
        ValueIncreases(k, k + 1);
        ValueIncreases(k + 1, h);
      }
      assert false;
    }
  }

  // ----- The conversion -------------------------------------------------

  predicate NaN32(bits: nat) {
    Exponent32(bits) == 255 && Mantissa32(bits) != 0
  }

  /** NaNs are what lies beyond the bits of infinity, sign aside. */
  lemma {:induction false} NaNsMean(bits: nat)
    requires bits < 0x1_0000_0000
    ensures NaN32(bits) <==> bits % 0x8000_0000 > 0x7f80_0000
  {
    var e, m := bits / 0x80_0000, bits % 0x80_0000;
    assert bits == e * 0x80_0000 + m && e < 512;
    assert bits % 0x8000_0000 == (e % 256) * 0x80_0000 + m;
  }

  /** What a half is to a binary32 number: the sign is kept, the magnitude goes
      to a nearest one, and NaNs become the quiet NaN. */
  ghost predicate Converted(bits: nat, half: nat) {
    && half < 0x1_0000 && half / 0x8000 == bits / 0x8000_0000
    && if NaN32(bits) then half % 0x8000 == 0x7e00 else NearestEven(Value32(bits), half % 0x8000)
  }

  /** Signed values; infinity counts as the next value after the largest finite. */
  function Signed32(bits: nat): int {
    if bits / 0x8000_0000 == 0 then Value32(bits) else 0 - Value32(bits)
  }

  function Signed16(half: nat): int {
    if half / 0x8000 == 0 then Value16(half % 0x8000) else 0 - Value16(half % 0x8000)
  }

  /** The conversion keeps the order of signed numbers, infinities included. */
  lemma {:induction false} ConversionIsMonotone(a: nat, b: nat, ha: nat, hb: nat)
    requires a < 0x1_0000_0000 && b < 0x1_0000_0000 && !NaN32(a) && !NaN32(b)
    requires Converted(a, ha) && Converted(b, hb) && Signed32(a) <= Signed32(b)
    ensures Signed16(ha) <= Signed16(hb)
  {
    hide NearestEven, Value16, Value32, Exponent32, Mantissa32;
    var h, k := ha % 0x8000, hb % 0x8000;
    if Value32(a) <= Value32(b) {
      MagnitudeIsMonotone(Value32(a), Value32(b), h, k);
    }
    if Value32(b) <= Value32(a) {
      MagnitudeIsMonotone(Value32(b), Value32(a), k, h);
    }
    if Value32(a) == 0 {
      ZeroIsKept(h);
    }
    if Value32(b) == 0 {
      ZeroIsKept(k);
    }
  }

  lemma {:induction false} MagnitudeIsMonotone(v: nat, w: nat, h: nat, k: nat)
    requires NearestEven(v, h) && NearestEven(w, k) && v <= w
    ensures Value16(h) <= Value16(k)
  {
    hide NearestEven, Value16;
    RoundingIsMonotone(v, w, h, k);
    if h < k {
      ValueIncreases(h, k);
    }
  }

  /** A number that binary16 can represent converts to itself. */
  lemma {:induction false} ExactIsKept(h: nat, k: nat)
    requires NearestEven(Value16(k), h) && k <= INFINITY16
    ensures h == k
  {
    hide Value16;
    if h < k {
      ValueIncreases(h, k);
    } else if k < h {
      ValueIncreases(k, h);
    }
  }

  lemma {:induction false} ZeroIsKept(h: nat)
    requires NearestEven(0, h)
    ensures Value16(h) == 0
  {
    hide NearestEven, Pow2;
    ValueSubnormal(0);
    ExactIsKept(h, 0);
  }

  /** Converts the bits of a binary32 number. Finite magnitudes go to the
      nearest binary16 magnitude, ties to even, overflow to infinity; infinities
      stay, NaNs become the quiet NaN; the sign bit is kept throughout. */
  method FloatToHalf(bits: nat) returns (half: nat)
    requires bits < 0x1_0000_0000
    ensures Converted(bits, half)
  {
    hide NearestEven, Value32, Mantissa32;
    var sign := bits / 0x8000_0000;
    var exponent := Exponent32(bits);
    var mantissa := Mantissa32(bits);
    var magnitude: nat;
    if exponent == 0xff {
      if mantissa == 0 {
        InfinityIsKept(bits);
      }
      magnitude := if mantissa == 0 then 0x7c00 else 0x7e00;
    } else {
      magnitude := ConvertFinite(bits, exponent, mantissa);
    }
    half := sign * 0x8000 + magnitude;
  }

  method ConvertFinite(bits: nat, exponent: nat, mantissa: nat) returns (h: nat)
    requires exponent == Exponent32(bits) < 255 && mantissa == Mantissa32(bits)
    ensures h <= INFINITY16 && NearestEven(Value32(bits), h)
  {
    hide NearestEven, Value32, Pow2, Exponent32, Mantissa32, ShiftRight, LowBits;
    var halfExponent := exponent - 127 + 15;
    if halfExponent >= 31 {
      TooLarge(bits);
      return 0x7c00;
    }
    if halfExponent <= 0 {
      if halfExponent < -10 {
        TooSmall(bits);
        return 0;
      }
      var full := mantissa + 0x80_0000;
      var shift := 14 - halfExponent;
      var halfMantissa := ShiftRight(full, shift);
      var remainder := LowBits(full, shift);
      var halfway := Pow2(shift - 1);
      SubnormalRounds(bits, shift);
      if remainder > halfway || (remainder == halfway && halfMantissa % 2 != 0) {
        halfMantissa := halfMantissa + 1;
      }
      return halfMantissa;
    }
    var halfMantissa := mantissa / 0x2000;
    var remainder := mantissa % 0x2000;
    NormalRounds(bits);
    if remainder > 0x1000 || (remainder == 0x1000 && halfMantissa % 2 != 0) {
      halfMantissa := halfMantissa + 1;
      if halfMantissa == 0x400 {
        halfMantissa := 0;
        halfExponent := halfExponent + 1;
        if halfExponent >= 31 {
          return 0x7c00;
        }
      }
    }
    return halfExponent * 1024 + halfMantissa;
  }

  lemma InfinityIsKept(bits: nat)
    requires Exponent32(bits) == 255
    ensures NearestEven(Value32(bits), INFINITY16)
  {
    hide NearestEven;
    TooLarge(bits);
  }

  lemma {:induction false} TooLarge(bits: nat)
    requires 143 <= Exponent32(bits)
    ensures NearestEven(Value32(bits), INFINITY16)
  {
    hide Pow2;
    Pow2Mono(142, Exponent32(bits) - 1);
    Pow2Small();
    Pow2Add(13, 142);
    Scale(Pow2(142), Pow2(Exponent32(bits) - 1), 0x80_0000);
    Scale(0x80_0000, 0x80_0000 + Mantissa32(bits), Pow2(Exponent32(bits) - 1));
    ValueNormal(INFINITY16, 31, 0);
    AtOrAboveInfinity(Value32(bits));
  }

  lemma {:induction false} AtOrAboveInfinity(v: nat)
    requires v >= Value16(INFINITY16)
    ensures NearestEven(v, INFINITY16)
  {
    hide Value16;
    forall k | 0 <= k < INFINITY16 ensures Value16(k) < Value16(INFINITY16) {
      ValueIncreases(k, INFINITY16);
    }
  }

  lemma Pow2Small()
    ensures Pow2(10) == 1024 && Pow2(13) == 8192 && Pow2(24) == 0x100_0000
  {
    assert Pow2(3) == 8;
    assert Pow2(5) == 32;
    Pow2Add(5, 5);
    Pow2Add(10, 3);
    Pow2Add(13, 10);
    Pow2Add(23, 1);
  }

  /** Value and unit of a normal magnitude from its fields. */
  lemma ValueNormal(h: nat, e: nat, m: nat)
    requires e >= 1 && m < 1024 && h == e * 1024 + m
    ensures Value16(h) == (1024 + m) * Pow2(e + 124) && Unit(h) == Pow2(e + 124)
  {
    assert h / 1024 == e && h % 1024 == m;
  }

  lemma ValueSubnormal(h: nat)
    requires h < 1024
    ensures Value16(h) == h * Pow2(125) && Unit(h) == Pow2(125)
  {
    hide Pow2;
  }

  lemma {:induction false} TooSmall(bits: nat)
    requires Exponent32(bits) <= 101
    ensures NearestEven(Value32(bits), 0)
  {
    hide Pow2;
    var v, m := Value32(bits), Mantissa32(bits);
    Pow2Small();
    Pow2Add(24, 100);
    Pow2Add(1, 124);
    TwoToTheOne();
    if Exponent32(bits) == 0 {
      Pow2Mono(0, 100);
    } else {
      Pow2Mono(Exponent32(bits) - 1, 100);
      Scale(0x80_0000 + m, 0x100_0000, Pow2(Exponent32(bits) - 1));
      Scale(Pow2(Exponent32(bits) - 1), Pow2(100), 0x100_0000);
    }
    ValueSubnormal(0);
    NextValue(0);
    NeighbourIsNearest(v, 0, 0);
  }

  lemma TwoToTheOne()
    ensures Pow2(1) == 2
  {
  }

  function Quotient(x: nat, d: nat): nat
    requires d > 0
  {
    x / d
  }

  function ShiftRight(x: nat, shift: nat): nat {
    Quotient(x, Pow2(shift))
  }

  /** The bits that the shift drops. */
  function LowBits(x: nat, shift: nat): int {
    x - ShiftRight(x, shift) * Pow2(shift)
  }

  lemma ShiftSplits(x: nat, shift: nat)
    ensures 0 <= LowBits(x, shift) < Pow2(shift)
  {
    hide Pow2;
    QuotientSplit(x, Pow2(shift));
  }

  lemma QuotientSplit(x: nat, d: nat)
    requires d > 0
    ensures 0 <= x - Quotient(x, d) * d < d
  {
  }

  lemma {:induction false} SubnormalRounds(bits: nat, shift: nat)
    requires 102 <= Exponent32(bits) <= 112 && shift == 126 - Exponent32(bits)
    ensures var full := Mantissa32(bits) + 0x80_0000;
      var h, rem := ShiftRight(full, shift), LowBits(full, shift);
      && h < 1024
      && NearestEven(Value32(bits),
           if rem > Pow2(shift - 1) || (rem == Pow2(shift - 1) && h % 2 == 1) then h + 1 else h)
  {
    hide Pow2, Value16, ShiftRight, NearestEven;
    var full, p, s := Mantissa32(bits) + 0x80_0000, Pow2(Exponent32(bits) - 1), Pow2(shift - 1);
    Pow2Add(1, shift - 1);
    TwoToTheOne();
    Pow2Small();
    Pow2Add(4, 10);
    Pow2Four();
    Pow2Mono(14, shift);
    Pow2Add(shift, Exponent32(bits) - 1);
    ShiftSplits(full, shift);
    RoundShifted(Value32(bits), ShiftRight(full, shift), LowBits(full, shift), s, p);
  }

  lemma Pow2Four()
    ensures Pow2(4) == 16
  {
    assert Pow2(2) == 4;
  }

  /** A significand h * 2s + rem shifted right by the power of two 2s. */
  lemma {:induction false} RoundShifted(v: nat, h: nat, rem: nat, s: nat, p: nat)
    requires h * (2 * s) + rem < 0x100_0000 && rem < 2 * s && 2 * s >= 0x4000 && p >= 1
    requires 2 * s * p == Pow2(125) && v == (h * (2 * s) + rem) * p
    ensures h < 1024 && NearestEven(v, if rem > s || (rem == s && h % 2 == 1) then h + 1 else h)
  {
    hide Pow2, Value16, NearestEven;
    if h >= 1024 {
      Scale(1024, h, 2 * s);
      assert false;
    }
    ValueSubnormal(h);
    Associate(h, 2 * s, p);
    RoundStep(v, h, h * (2 * s), rem, s, p);
  }

  lemma Associate(x: nat, y: nat, z: nat)
    ensures x * y * z == x * (y * z)
  {
  }

  lemma Distribute(x: nat, y: nat, z: nat)
    ensures (x + y) * z == x * z + y * z
  {
  }

  lemma {:induction false} NormalRounds(bits: nat)
    requires 113 <= Exponent32(bits) <= 142
    ensures var h := (Exponent32(bits) - 112) * 1024 + Mantissa32(bits) / 8192;
      var rem := Mantissa32(bits) % 8192;
      h < INFINITY16 && NearestEven(Value32(bits), if rem > 4096 || (rem == 4096 && h % 2 == 1) then h + 1 else h)
  {
    hide Pow2, Value16;
    var e, m := Exponent32(bits), Mantissa32(bits);
    var h := (e - 112) * 1024 + m / 8192;
    var p := Pow2(e - 1);
    Pow2Small();
    Pow2Add(13, e - 1);
    ValueNormal(h, e - 112, m / 8192);
    Associate(1024 + m / 8192, 8192, p);
    RoundStep(Value32(bits), h, (1024 + m / 8192) * 8192, m % 8192, 4096, p);
  }
}
