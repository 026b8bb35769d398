/**
 The shared fixed-point scales of the trace header: a coordinate is stored as a
 32-bit whole number and a 16-bit scale, positive to multiply by and negative to
 divide by. `geom_t` is a real; the machine integers wrap.
 */
module Scale {
  import opened Decomposition

  // ------------------------------------------------------------ machine integers

  predicate Fits32(n: int) {
    -0x8000_0000 <= n < 0x8000_0000
  }

  predicate Fits16(n: int) {
    -0x8000 <= n < 0x8000
  }

  /** The low bits read as a signed number. */
  function Wrap32(n: int): (v: int)
    ensures Fits32(v) && (n - v) % 0x1_0000_0000 == 0
    ensures v == n <==> Fits32(n)
    ensures v == n || v - n >= 0x1_0000_0000 || n - v >= 0x1_0000_0000
  {
    var low := n % 0x1_0000_0000;
    if low < 0x8000_0000 then low else low - 0x1_0000_0000
  }

  function Wrap16(n: int): (v: int)
    ensures Fits16(v) && (n - v) % 0x1_0000 == 0
    ensures v == n <==> Fits16(n)
  {
    var low := n % 0x1_0000;
    if low < 0x8000 then low else low - 0x1_0000
  }

  /** The powers of ten that serve as scales. */
  predicate Decade(s: int) {
    s == 10 || s == 100 || s == 1000 || s == 10000
  }

  /** Integer division rounding towards zero. */
  function Quot(n: int, d: int): (q: int)
    requires Decade(d)
  {
    if n >= 0 then n / d else -((-n) / d)
  }

  lemma {:induction false} QuotBounds(n: int, d: int)
    requires Decade(d)
    ensures n >= 0 ==> 0 <= Quot(n, d) * d <= n < Quot(n, d) * d + d
    ensures n < 0 ==> Quot(n, d) * d - d < n <= Quot(n, d) * d <= 0
  {
  }

  /** The conversion of a real to an integer type. */
  function Trunc(x: real): (n: int)
    ensures x >= 0.0 ==> 0.0 <= n as real <= x < n as real + 1.0
    ensures x < 0.0 ==> n as real - 1.0 < x <= n as real <= 0.0
  {
    if x >= 0.0 then x.Floor else -((-x).Floor)
  }

  /** `lround`: to the nearest integer, halfway cases away from zero. */
  function Round(x: real): (n: int)
    ensures -0.5 <= n as real - x <= 0.5
    ensures x >= 0.0 ==> n >= 0 && n as real - x > -0.5
    ensures x <= 0.0 ==> n <= 0 && n as real - x < 0.5
  {
    if x >= 0.0 then (x + 0.5).Floor else -((-x + 0.5).Floor)
  }

  /** Nothing strictly within half a unit of an integer rounds elsewhere. */
  lemma {:induction false} RoundNear(x: real, n: int)
    requires -0.5 < x - n as real < 0.5
    ensures Round(x) == n
  {
  }

  // -------------------------------------------------------------------- scaleConv

  /** The factor a stored scale stands for. */
  function ScaleConv(scale: int): (g: real)
    ensures g > 0.0
  {
    var s := if scale == 0 then 1 else scale;
    if s > 0 then s as real else 1.0 / (-s) as real
  }

  /** A positive scale multiplies, a negative one divides, and none is as good as one. */
  lemma {:induction false} ScaleFactors(scale: int, n: int)
    ensures scale > 0 ==> ScaleConv(scale) * n as real == (scale * n) as real
    ensures scale < 0 ==> ScaleConv(scale) * (-scale) as real == 1.0
    ensures ScaleConv(0) == 1.0
  {
  }

  // ---------------------------------------------------------------------- deScale

  const TEN_K := 10000

  /** The digits after the point, to four places. */
  function Digits(val: real): int {
    Round(val * TEN_K as real) - Trunc(val) * TEN_K
  }

  /** The i-th step of the search tries the scale -TEN_K / i. */
  function Step(s: int): (i: int)
    requires Decade(s)
    ensures i == 1 || i == 10 || i == 100 || i == 1000
  {
    TEN_K / s
  }

  function Factor(i: int): (s: int)
    requires i == 1 || i == 10 || i == 100 || i == 1000
    ensures Decade(-s) && Step(-s) == i
  {
    -TEN_K / i
  }

  lemma {:induction false} StepIs(s: int)
    requires Decade(s)
    ensures Step(s) == if s == 10000 then 1 else if s == 1000 then 10 else if s == 100 then 100 else 1000
  {
  }

  predicate InUse(digits: int, i: int)
    requires i > 0
  {
    digits % (i * 10) != 0
  }

  /** The scale -s keeps a place that is in use and a coarser one would lose. */
  predicate Wanted(val: real, s: int)
    requires Decade(s)
  {
    InUse(Digits(val), Step(s))
  }

  /** The test in 32-bit arithmetic that dividing by s keeps the whole part. */
  predicate Holds(val: real, s: int)
    requires Decade(s)
  {
    Quot(Wrap32(Round(val / ScaleConv(-s))), s) == Trunc(val)
  }

  predicate Chosen(val: real, s: int)
    requires Decade(s)
  {
    Wanted(val, s) && Holds(val, s)
  }

  /** The smallest scale that makes a large whole part fit. */
  function Coarse(whole: int): int {
    if Fits32(Quot(whole, 10)) then 10
    else if Fits32(Quot(whole, 100)) then 100
    else if Fits32(Quot(whole, 1000)) then 1000
    else if Fits32(Quot(whole, 10000)) then 10000
    else 0
  }

  /** The scale that keeps most places. */
  function Fine(val: real): int {
    if Chosen(val, 10000) then -10000
    else if Chosen(val, 1000) then -1000
    else if Chosen(val, 100) then -100
    else if Chosen(val, 10) then -10
    else 1
  }

  /** The scale of one value. */
  function Descaled(val: real): (scale: int)
    ensures scale == 0 || scale == 1 || Decade(scale) || Decade(-scale)
  {
    if Fits32(Trunc(val)) then Fine(val) else Coarse(Trunc(val))
  }

  predicate IsLlint(n: int) {
    -0x8000_0000_0000_0000 <= n < 0x8000_0000_0000_0000
  }

  method DeScale(val: real) returns (scale: int)
    requires IsLlint(Trunc(val))
    ensures scale == Descaled(val)
  {
    var llintpart := Trunc(val);
    var intpart := Wrap32(llintpart);
    if llintpart != intpart {
      scale := LargeScale(llintpart);
    } else {
      scale := SmallScale(val, llintpart);
    }
  }

  /** Starts with the smallest factor: keep the most significant digit. */
  method LargeScale(llintpart: int) returns (scale: int)
    ensures scale == Coarse(llintpart)
  {
    var scal := 10;
    while scal <= TEN_K
      invariant Decade(scal) || scal == 100000
      invariant scal > 10 ==> !Fits32(Quot(llintpart, 10))
      invariant scal > 100 ==> !Fits32(Quot(llintpart, 100))
      invariant scal > 1000 ==> !Fits32(Quot(llintpart, 1000))
      invariant scal > 10000 ==> !Fits32(Quot(llintpart, 10000))
      decreases TEN_K - scal
    {
      var v := Quot(llintpart, scal);
      hide Quot;
      var iv := Wrap32(v);
      if v == iv {
        return scal;
      }
      scal := scal * 10;
    }
    return 0;
  }

  /** Starts with the finest factor: keep the most places. */
  method SmallScale(val: real, llintpart: int) returns (scale: int)
    requires Fits32(llintpart) && llintpart == Trunc(val)
    ensures scale == Fine(val)
  {
    var digits := Round(val * TEN_K as real) - llintpart * TEN_K;
    assert digits == Digits(val);
    if digits != 0 {
      var i := 1;
      while i < TEN_K
        invariant i == 1 || Decade(i)
        invariant i > 1 ==> !Chosen(val, 10000)
        invariant i > 10 ==> !Chosen(val, 1000)
        invariant i > 100 ==> !Chosen(val, 100)
        invariant i > 1000 ==> !Chosen(val, 10)
        decreases TEN_K - i
      {
        var scaleFactor := Factor(i);
        StepIs(-scaleFactor);
        ChosenIs(val, -scaleFactor);
        hide *;
        if InUse(digits, i) {
          var scal := ScaleConv(scaleFactor);
          var t := Wrap32(Round(val / scal));
          t := Quot(t, -scaleFactor);
          if t == llintpart {
            FineIs(val, -scaleFactor);
            return scaleFactor;
          }
        }
        i := i * 10;
      }
    }
    return 1;
  }

  lemma {:induction false} ChosenIs(val: real, s: int)
    requires Decade(s)
    ensures Chosen(val, s) <==>
            InUse(Digits(val), Step(s)) && Quot(Wrap32(Round(val / ScaleConv(-s))), s) == Trunc(val)
  {
  }

  lemma {:induction false} FineIs(val: real, s: int)
    requires Decade(s) && Chosen(val, s)
    requires s < 10000 ==> !Chosen(val, 10000)
    requires s < 1000 ==> !Chosen(val, 1000)
    requires s < 100 ==> !Chosen(val, 100)
    ensures Fine(val) == -s
  {
  }

  // ---------------------------------------------------------- what one scale keeps

  /** The whole number stored for a value under a scale, before it is cut to 32 bits. */
  function Stored(val: real, scale: int): int {
    Round(val / ScaleConv(scale))
  }

  /** The value read back from a stored number. */
  function Decoded(n: int, scale: int): real {
    ScaleConv(scale) * n as real
  }

  predicate Near(a: real, b: real, distance: real) {
    -distance <= a - b <= distance
  }

  lemma {:induction false} NegativeScale(val: real, s: int)
    requires Decade(s)
    ensures val / ScaleConv(-s) == val * s as real
    ensures ScaleConv(-s) * s as real == 1.0
  {
  }

  function InUnits(g: real, e: real): real {
    g * e
  }

  /** How far a stored number is from the value, in units of the scale. */
  function Error(val: real, scale: int, n: int): real {
    n as real - val / ScaleConv(scale)
  }

  /** Reading back a number is off by its distance from the value in units. */
  lemma {:induction false} UnitsOff(val: real, scale: int, n: int)
    ensures Decoded(n, scale) - val == InUnits(ScaleConv(scale), Error(val, scale, n))
  {
    hide ScaleConv;
    Rescale(val, ScaleConv(scale));
    Spread(ScaleConv(scale), n as real, val / ScaleConv(scale));
  }

  lemma {:induction false} Rescale(val: real, g: real)
    requires g > 0.0
    ensures g * (val / g) == val
  {
  }

  lemma {:induction false} Spread(g: real, a: real, b: real)
    ensures g * a - g * b == g * (a - b)
  {
  }

  /** Reading back what is stored is off by at most half a unit of the scale. */
  lemma {:induction false} HalfAUnit(val: real, scale: int)
    ensures Near(Decoded(Stored(val, scale), scale), val, ScaleConv(scale) / 2.0)
  {
    UnitsOff(val, scale, Stored(val, scale));
    StoredError(val, scale);
    hide ScaleConv, Decoded, Stored, Error, InUnits;
    ScaleBy(ScaleConv(scale), Error(val, scale, Stored(val, scale)));
  }

  lemma {:induction false} StoredError(val: real, scale: int)
    ensures -0.5 <= Error(val, scale, Stored(val, scale)) <= 0.5
  {
    hide ScaleConv, Round;
  }

  lemma {:induction false} NotNegative(a: real, b: real)
    requires a >= 0.0 && b >= 0.0
    ensures a * b >= 0.0
  {
  }

  lemma {:induction false} ScaleBy(g: real, e: real)
    requires g > 0.0 && -0.5 <= e <= 0.5
    ensures -(g / 2.0) <= InUnits(g, e) <= g / 2.0
  {
    NotNegative(g, 0.5 - e);
    NotNegative(g, 0.5 + e);
    assert g * (0.5 - e) == g / 2.0 - g * e && g * (0.5 + e) == g / 2.0 + g * e;
  }

  /** More than a unit off stays more than half a unit off. */
  lemma {:induction false} ScaleFar(g: real, e: real)
    requires g > 0.0 && (e > 1.0 || e < -1.0)
    ensures InUnits(g, e) > g / 2.0 || InUnits(g, e) < -(g / 2.0)
  {
    if e > 1.0 {
      NotNegative(g, e - 1.0);
      assert g * (e - 1.0) == g * e - g;
    } else {
      NotNegative(g, -1.0 - e);
      assert g * (-1.0 - e) == -g - g * e;
    }
  }

  lemma {:induction false} ErrorGap(val: real, scale: int, n: int, m: int)
    ensures Error(val, scale, m) - Error(val, scale, n) == (m - n) as real
  {
  }

  /** The value comes back within half a unit exactly if the stored number fits 32
      bits. */
  lemma {:induction false} NearExactness(val: real, scale: int)
    ensures Near(Decoded(Wrap32(Stored(val, scale)), scale), val, ScaleConv(scale) / 2.0) <==> Fits32(Stored(val, scale))
  {
    var n, m := Stored(val, scale), Wrap32(Stored(val, scale));
    if m == n {
      HalfAUnit(val, scale);
    } else {
      UnitsOff(val, scale, m);
      StoredError(val, scale);
      ErrorGap(val, scale, n, m);
      hide ScaleConv, Decoded, Stored, Error, InUnits;
      ScaleFar(ScaleConv(scale), Error(val, scale, m));
    }
  }

  /** Rounding stays in 32 bits exactly between these bounds. */
  lemma {:induction false} RoundFits(x: real)
    ensures Fits32(Round(x)) <==> -2147483648.5 < x < 2147483647.5
  {
  }

  /** Below the next power of two in units of d, or above it on the negative side, by no
      more than half a unit. */
  predicate InGap(val: real, d: int) {
    || 2147483647.5 * d as real <= val < 2147483648.0 * d as real
    || -2147483649.0 * d as real < val <= -2147483648.5 * d as real
  }

  /** For every value, whether the number stored under its own scale fits 32 bits: unless
      it is out of range altogether, or so close to the limit for a scale that the
      search, which looks at the whole part, takes a scale under which it is rounded
      over the limit. */
  lemma {:induction false} DescaledExactness(val: real)
    ensures Fits32(Stored(val, Descaled(val))) <==>
            && -21474836490000.0 < val < 21474836480000.0
            && forall d :: d == 1 || Decade(d) ==> !InGap(val, d)
  {
    hide Trunc, Round, Coarse, Fine, Stored, InGap;
    var scale := Descaled(val);
    WholeFits(val);
    if scale < 0 {
      NegativeScaleSound(val);
      FarFromLimit(val);
    } else if scale > 0 {
      PositiveScale(val, scale);
      StoredBounds(val, scale);
      OtherGaps(val, scale);
    } else {
      NoScale(val);
    }
  }

  lemma {:induction false} WholeFits(val: real)
    ensures Fits32(Trunc(val)) <==> -2147483649.0 < val < 2147483648.0
  {
  }

  lemma {:induction false} QuotFits(val: real, d: int)
    requires Decade(d)
    ensures Fits32(Quot(Trunc(val), d)) <==> -2147483649.0 * d as real < val < 2147483648.0 * d as real
  {
    QuotBounds(Trunc(val), d);
    hide Quot;
  }

  /** A scale that is not negative is the first one with the value inside its range. */
  lemma {:induction false} PositiveScale(val: real, scale: int)
    requires scale == Descaled(val) > 0
    ensures scale == 1 || Decade(scale)
    ensures -2147483649.0 * scale as real < val < 2147483648.0 * scale as real
    ensures scale == 1 || !(-2147483649.0 * (scale / 10) as real < val < 2147483648.0 * (scale / 10) as real)
  {
    WholeFits(val);
    QuotFits(val, 10);
    QuotFits(val, 100);
    QuotFits(val, 1000);
    QuotFits(val, 10000);
    hide Trunc, Quot, Chosen;
  }

  lemma {:induction false} NoScale(val: real)
    requires Descaled(val) == 0
    ensures !(-21474836490000.0 < val < 21474836480000.0) && !Fits32(Stored(val, 0))
  {
    WholeFits(val);
    QuotFits(val, 10000);
    RoundFits(val);
    hide Trunc, Round, Quot, Chosen;
  }

  lemma {:induction false} StoredBounds(val: real, scale: int)
    requires scale == 1 || Decade(scale)
    ensures Fits32(Stored(val, scale)) <==> -2147483648.5 * scale as real < val < 2147483647.5 * scale as real
  {
    RoundFits(val / scale as real);
    hide Round;
  }

  /** A value in the range of one scale and out of the range of the next smaller one is in
      no gap but that of its own. */
  lemma {:induction false} OtherGaps(val: real, scale: int)
    requires scale == 1 || Decade(scale)
    requires -2147483649.0 * scale as real < val < 2147483648.0 * scale as real
    requires scale == 1 || !(-2147483649.0 * (scale / 10) as real < val < 2147483648.0 * (scale / 10) as real)
    ensures forall d :: d != scale && (d == 1 || Decade(d)) ==> !InGap(val, d)
    ensures !InGap(val, scale) <==> -2147483648.5 * scale as real < val < 2147483647.5 * scale as real
    ensures -21474836490000.0 < val < 21474836480000.0
  {
  }

  /** A value with decimals worth a scale of their own is far from every limit. */
  lemma {:induction false} FarFromLimit(val: real)
    requires Descaled(val) < 0
    ensures -21474836490000.0 < val < 21474836480000.0 && forall d :: d == 1 || Decade(d) ==> !InGap(val, d)
  {
    var s := -Descaled(val);
    NegativeIsChosen(val);
    HoldsExactness(val, s);
    NegativeScale(val, s);
    RoundFits(val * s as real);
    hide *;
    NoGapNear(val, s);
  }

  lemma {:induction false} NoGapNear(val: real, s: int)
    requires Decade(s) && -2147483648.5 < val * s as real < 2147483647.5
    ensures -21474836490000.0 < val < 21474836480000.0 && forall d :: d == 1 || Decade(d) ==> !InGap(val, d)
  {
    assert -214748364.9 < val < 214748364.8;
  }

  /** The test is sound and complete: the 32-bit arithmetic says yes exactly if the
      stored number does fit and keeps the whole part. */
  lemma {:induction false} HoldsExactness(val: real, s: int)
    requires Decade(s) && Fits32(Trunc(val))
    ensures Holds(val, s) <==> Fits32(Stored(val, -s)) && Quot(Stored(val, -s), s) == Trunc(val)
  {
    NegativeScale(val, s);
    var r, whole := Stored(val, -s), Trunc(val);
    StoredNearWhole(val, s);
    var t := Wrap32(r);
    if Holds(val, s) && t != r {
      QuotBounds(t, s);
      assert false;
    }
  }

  lemma {:induction false} StoredNearWhole(val: real, s: int)
    requires Decade(s)
    ensures val >= 0.0 ==> Trunc(val) * s <= Stored(val, -s) <= Trunc(val) * s + s
    ensures val < 0.0 ==> Trunc(val) * s - s <= Stored(val, -s) <= Trunc(val) * s
  {
    NegativeScale(val, s);
  }

  /** A negative scale from deScale can be trusted: the stored number fits and the
      value comes back within half a unit. */
  lemma {:induction false} NegativeScaleSound(val: real)
    requires Descaled(val) < 0
    ensures var scale := Descaled(val);
            && Decade(-scale) && Fits32(Stored(val, scale))
            && Quot(Stored(val, scale), -scale) == Trunc(val)
            && Near(Decoded(Stored(val, scale), scale), val, 1.0 / (2 * -scale) as real)
  {
    var s := -Descaled(val);
    NegativeIsChosen(val);
    HoldsExactness(val, s);
    HalfAUnit(val, -s);
    NegativeUnit(s);
    hide *;
  }

  lemma {:induction false} NegativeUnit(s: int)
    requires Decade(s)
    ensures ScaleConv(-s) / 2.0 == 1.0 / (2 * s) as real
  {
  }

  lemma {:induction false} NegativeIsChosen(val: real)
    requires Descaled(val) < 0
    ensures Fits32(Trunc(val)) && Decade(-Descaled(val)) && Chosen(val, -Descaled(val))
  {
  }

  // ------------------------------------------------------------- four decimal places

  /** The value rounded to four places, in units of the fourth. */
  function Places(val: real): int {
    Round(val * 10000.0)
  }

  /** If the scale -s keeps all the places in use, the stored number is those places. */
  lemma {:induction false} StoredExact(val: real, s: int, n: int)
    requires Decade(s) && Places(val) == n * Step(s)
    ensures Stored(val, -s) == n
    ensures Near(Decoded(n, -s), val, 0.00005)
  {
    NegativeScale(val, s);
    StepIs(s);
    var p := Places(val);
    assert Near(p as real, val * 10000.0, 0.5);
    hide Round, Trunc, ScaleConv, Step;
    if s == 10000 {
      assert ScaleConv(-s) * n as real == n as real / 10000.0;
    } else if s == 1000 {
      RoundNear(val * 1000.0, n);
      assert ScaleConv(-s) * n as real == n as real / 1000.0;
    } else if s == 100 {
      RoundNear(val * 100.0, n);
      assert ScaleConv(-s) * n as real == n as real / 100.0;
    } else {
      RoundNear(val * 10.0, n);
      assert ScaleConv(-s) * n as real == n as real / 10.0;
    }
  }

  /** Whether the scale -s is needed, in terms of the places. */
  lemma {:induction false} WantedPlaces(val: real, s: int)
    requires Decade(s)
    ensures s == 10000 ==> (Wanted(val, s) <==> Places(val) % 10 != 0)
    ensures s == 1000 ==> (Wanted(val, s) <==> Places(val) % 100 != 0)
    ensures s == 100 ==> (Wanted(val, s) <==> Places(val) % 1000 != 0)
    ensures s == 10 ==> (Wanted(val, s) <==> Places(val) % 10000 != 0)
  {
    StepIs(s);
    var p, w := Places(val), Trunc(val);
    assert Digits(val) == p - w * 10000;
    InUseAt(p, w);
    hide Digits, Step, Places, Trunc, Round, InUse;
  }

  lemma {:induction false} InUseAt(p: int, w: int)
    ensures InUse(p - w * 10000, 1) <==> p % 10 != 0
    ensures InUse(p - w * 10000, 10) <==> p % 100 != 0
    ensures InUse(p - w * 10000, 100) <==> p % 1000 != 0
    ensures InUse(p - w * 10000, 1000) <==> p % 10000 != 0
  {
    ShiftMod(p, w * 1000, 10);
    ShiftMod(p, w * 100, 100);
    ShiftMod(p, w * 10, 1000);
    ShiftMod(p, w, 10000);
  }

  lemma {:induction false} ShiftMod(p: int, k: int, m: nat)
    requires m > 0
    ensures (p - k * m) % m == p % m
  {
    DivUnique(p - k * m, m, p / m - k, p % m);
  }

  /** No scale finer than the one chosen was needed; a needed one is passed over only
      if the test rejects it. */
  ghost predicate NoneRejected(val: real) {
    forall s :: Decade(s) && s > -Descaled(val) ==> !Wanted(val, s)
  }

  /** Unless a needed scale was rejected, the value comes back to four places. */
  lemma {:induction false} FourPlacesUnlessRejected(val: real)
    requires Fits32(Trunc(val)) && NoneRejected(val)
    ensures Near(Decoded(Stored(val, Descaled(val)), Descaled(val)), val, 0.00005)
  {
    var scale, p := Descaled(val), Places(val);
    assert scale == Fine(val);
    WantedPlaces(val, 10000);
    WantedPlaces(val, 1000);
    WantedPlaces(val, 100);
    WantedPlaces(val, 10);
    assert scale != -10000 ==> !Wanted(val, 10000);
    assert scale > -1000 ==> !Wanted(val, 1000);
    assert scale > -100 ==> !Wanted(val, 100);
    assert scale > -10 ==> !Wanted(val, 10);
    StepIs(if Decade(-scale) then -scale else 10);
    hide Wanted, Descaled, Places, Trunc, Round, NoneRejected, Stored, Decoded, Step, Fine;
    if scale == -10000 {
      StoredExact(val, 10000, p);
    } else if scale == -1000 {
      StoredExact(val, 1000, p / 10);
    } else if scale == -100 {
      StoredExact(val, 100, p / 100);
    } else if scale == -10 {
      StoredExact(val, 10, p / 1000);
    } else {
      WholeStored(val, p / 10000);
    }
  }

  lemma {:induction false} WholeStored(val: real, n: int)
    requires Places(val) == n * 10000
    ensures Stored(val, 1) == n && Near(Decoded(n, 1), val, 0.00005)
  {
    assert Near(Places(val) as real, val * 10000.0, 0.5);
    RoundNear(val, n);
  }

  /** A needed scale whose number fits is not rejected. */
  lemma {:induction false} NeededHolds(val: real, s: int, n: int)
    requires Decade(s) && Fits32(Trunc(val))
    requires Places(val) == n * Step(s) && Fits32(n) && n % 10 != 0
    ensures Holds(val, s)
  {
    StoredExact(val, s, n);
    HoldsExactness(val, s);
    StoredNearWhole(val, s);
    QuotBounds(n, s);
    var w := Trunc(val);
    hide *;
    QuotIs(n, s, w);
  }

  lemma {:induction false} QuotIs(n: int, s: int, w: int)
    requires Decade(s) && n % 10 != 0
    requires (w >= 0 && w * s <= n <= w * s + s) || (w <= 0 && w * s - s <= n <= w * s)
    ensures Quot(n, s) == w
  {
    TenDivides(w, s);
    if n >= 0 {
      DivUnique(n, s, w, n - w * s);
    } else {
      DivUnique(-n, s, -w, w * s - n);
    }
  }

  lemma {:induction false} TenDivides(w: int, s: int)
    requires Decade(s)
    ensures (w * s + s) % 10 == 0 && (w * s - s) % 10 == 0
  {
    if s == 10 {
      Tens(w, 1);
    } else if s == 100 {
      Tens(w, 10);
    } else if s == 1000 {
      Tens(w, 100);
    } else {
      Tens(w, 1000);
    }
  }

  lemma {:induction false} Tens(w: int, t: int)
    ensures (w * (t * 10) + t * 10) % 10 == 0 && (w * (t * 10) - t * 10) % 10 == 0
  {
    var k := w * t;
    MovedPoint(w, t);
    hide *;
    MultipleDivides(k + t, 10);
    MultipleDivides(k - t, 10);
  }

  lemma {:induction false} MovedPoint(w: int, t: int)
    ensures w * (t * 10) == (w * t) * 10
  {
  }

  /** The first multiple of ten not to divide p. */
  lemma {:induction false} Tenth(p: int, m: nat)
    requires m > 0 && p % m == 0 && p % (10 * m) != 0
    ensures p == (p / m) * m && (p / m) % 10 != 0
  {
    if (p / m) % 10 == 0 {
      var k := p / m / 10;
      assert p == k * (10 * m);
      MultipleDivides(k, 10 * m);
      assert false;
    }
  }

  /** So while four decimal places fit 32 bits, every value comes back to them. */
  lemma {:induction false} FourPlacesKept(val: real)
    requires Fits32(Places(val))
    ensures Descaled(val) <= 1 && Fits32(Stored(val, Descaled(val)))
    ensures Near(Decoded(Stored(val, Descaled(val)), Descaled(val)), val, 0.00005)
  {
    var p := Places(val);
    SmallWhole(val);
    WantedPlaces(val, 10000);
    WantedPlaces(val, 1000);
    WantedPlaces(val, 100);
    WantedPlaces(val, 10);
    AllNeededHold(val);
    assert Descaled(val) == Fine(val);
    FinestWanted(val);
    FourPlacesUnlessRejected(val);
    if Descaled(val) < 0 {
      NegativeScaleSound(val);
    } else {
      hide Round, Trunc, ScaleConv, Descaled, Stored;
      WholeStored(val, p / 10000);
    }
  }

  lemma {:induction false} SmallWhole(val: real)
    requires Fits32(Places(val))
    ensures Fits32(Trunc(val))
  {
  }

  lemma {:induction false} AllNeededHold(val: real)
    requires Fits32(Places(val)) && Fits32(Trunc(val))
    ensures Wanted(val, 10000) ==> Holds(val, 10000)
    ensures !Wanted(val, 10000) && Wanted(val, 1000) ==> Holds(val, 1000)
    ensures !Wanted(val, 1000) && Wanted(val, 100) ==> Holds(val, 100)
    ensures !Wanted(val, 100) && Wanted(val, 10) ==> Holds(val, 10)
  {
    var p := Places(val);
    WantedPlaces(val, 10000);
    WantedPlaces(val, 1000);
    WantedPlaces(val, 100);
    WantedPlaces(val, 10);
    StepIs(10000);
    StepIs(1000);
    StepIs(100);
    StepIs(10);
    hide Wanted, Holds, Places, Trunc, Round, Step;
    if Wanted(val, 10000) {
      NeededHolds(val, 10000, p);
    }
    if !Wanted(val, 10000) && Wanted(val, 1000) {
      Tenth(p, 10);
      NeededHolds(val, 1000, p / 10);
    }
    if !Wanted(val, 1000) && Wanted(val, 100) {
      Tenth(p, 100);
      NeededHolds(val, 100, p / 100);
    }
    if !Wanted(val, 100) && Wanted(val, 10) {
      Tenth(p, 1000);
      NeededHolds(val, 10, p / 1000);
    }
  }

  lemma {:induction false} FinestWanted(val: real)
    requires Fits32(Trunc(val))
    requires Wanted(val, 10000) ==> Holds(val, 10000)
    requires !Wanted(val, 10000) && Wanted(val, 1000) ==> Holds(val, 1000)
    requires !Wanted(val, 1000) && Wanted(val, 100) ==> Holds(val, 100)
    requires !Wanted(val, 100) && Wanted(val, 10) ==> Holds(val, 10)
    ensures NoneRejected(val)
    ensures Descaled(val) == 1 ==> !Wanted(val, 10)
  {
    WantedPlaces(val, 10000);
    WantedPlaces(val, 1000);
    WantedPlaces(val, 100);
    WantedPlaces(val, 10);
    hide Wanted, Holds, Places, Trunc, Round;
  }

  /** If four places of a value fit 32 bits, so does the number stored under any scale
      for decimals. */
  lemma {:induction false} PlacesBound(val: real, scale: int)
    requires Fits32(Places(val)) && (scale == 1 || Decade(-scale))
    ensures Fits32(Stored(val, scale))
  {
    var x, y := Rounded(val, scale);
    hide *;
    RoundCloser(x, y);
  }

  /** What is rounded under a scale for decimals, and for four places. */
  lemma {:induction false} Rounded(val: real, scale: int) returns (x: real, y: real)
    requires scale == 1 || Decade(-scale)
    ensures Stored(val, scale) == Round(x) && Places(val) == Round(y) && (0.0 <= x <= y || y <= x <= 0.0)
  {
    var s := if scale == 1 then 1 else -scale;
    x, y := Scaled(val, s), Scaled(val, 10000);
    StoredDecimal(val, scale);
    PlacesScaled(val);
    Closer(val, s);
    hide *;
  }

  /** The value in units of 1 / s. */
  function Scaled(val: real, s: int): real {
    val * s as real
  }

  lemma {:induction false} PlacesScaled(val: real)
    ensures Places(val) == Round(Scaled(val, 10000))
  {
  }

  /** What is closer to zero rounds to a number that fits if the other does. */
  lemma {:induction false} RoundCloser(x: real, y: real)
    requires Fits32(Round(y)) && (0.0 <= x <= y || y <= x <= 0.0)
    ensures Fits32(Round(x))
  {
    RoundFits(x);
    RoundFits(y);
  }

  lemma {:induction false} StoredDecimal(val: real, scale: int)
    requires scale == 1 || Decade(-scale)
    ensures Stored(val, scale) == Round(Scaled(val, if scale == 1 then 1 else -scale))
  {
    if scale != 1 {
      NegativeScale(val, -scale);
    }
  }

  lemma {:induction false} Closer(val: real, s: int)
    requires 1 <= s <= 10000
    ensures val >= 0.0 ==> 0.0 <= Scaled(val, s) <= Scaled(val, 10000)
    ensures val < 0.0 ==> Scaled(val, 10000) <= Scaled(val, s) <= 0.0
  {
    var rest := (10000 - s) as real;
    assert val * 10000.0 == val * s as real + val * rest;
    if val >= 0.0 {
      NotNegative(val, rest);
      NotNegative(val, s as real);
    } else {
      NotNegative(-val, rest);
      NotNegative(-val, s as real);
      assert val * rest == -((-val) * rest) && val * s as real == -((-val) * s as real);
    }
  }
}
