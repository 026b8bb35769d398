/**
 One scale for all the values that share a scale field: the most demanding of
 their own scales. What is read back under the shared scale survives any further
 round of writing and reading.
 */
module SharedScale {
  import opened Decomposition
  import opened Scale

  /** Scales above 1 drop digits to keep the most significant one, so the largest
      wins; otherwise the one with most decimal places wins. */
  function Merge(a: int, b: int): int {
    if a > 1 || b > 1 then (if a > b then a else b) else (if a < b then a else b)
  }

  /** How demanding a scale is: a <= b. */
  predicate Below(a: int, b: int) {
    if a > 1 || b > 1 then a <= b else b <= a
  }

  lemma {:induction false} BelowIsOrder(a: int, b: int, c: int)
    ensures Below(a, a) && (Below(a, b) || Below(b, a))
    ensures Below(a, b) && Below(b, a) ==> a == b
    ensures Below(a, b) && Below(b, c) ==> Below(a, c)
  {
  }

  lemma {:induction false} MergeIsMaximum(a: int, b: int, c: int)
    ensures Below(a, Merge(a, b)) && Below(b, Merge(a, b)) && (Merge(a, b) == a || Merge(a, b) == b)
    ensures Below(a, c) && Below(b, c) ==> Below(Merge(a, b), c)
    ensures Merge(a, b) == Merge(b, a) && Merge(Merge(a, b), c) == Merge(a, Merge(b, c))
  {
  }

  /** The scale shared by some values is the most demanding one of theirs and 1. */
  ghost predicate IsShared(scales: set<int>, s: int) {
    && s in scales + {1}
    && forall x :: x in scales + {1} ==> Below(x, s)
  }

  /** It does not depend on the order in which the values are met. */
  lemma {:induction false} SharedUnique(scales: set<int>, s: int, t: int)
    requires IsShared(scales, s) && IsShared(scales, t)
    ensures s == t
  {
    assert Below(s, t) && Below(t, s);
  }

  lemma {:induction false} SharedMerge(scales: set<int>, s: int, x: int)
    requires IsShared(scales, s)
    ensures IsShared(scales + {x}, Merge(s, x))
  {
    MergeIsMaximum(s, x, s);
    forall y | y in scales + {x} + {1} ensures Below(y, Merge(s, x)) {
      BelowIsOrder(y, s, Merge(s, x));
    }
  }

  /** The scale that values with these scales come to share. */
  ghost function Shared(scales: set<int>): (t: int)
    ensures IsShared(scales, t)
    decreases |scales|
  {
    if !exists x :: x in scales then 1
    else
      var x :| x in scales;
      SharedMerge(scales - {x}, Shared(scales - {x}), x);
      assert scales == scales - {x} + {x};
      Merge(Shared(scales - {x}), x)
  }

  // ------------------------------------------------------------------------- grids

  predicate IsScale(s: int) {
    s == 0 || s == 1 || Decade(s) || Decade(-s)
  }

  /** The value can be stored under the scale without loss. */
  predicate OnGrid(val: real, s: int) {
    && val / ScaleConv(s) == Stored(val, s) as real
    && Fits32(Stored(val, s))
  }

  /** No more demanding than s, and on the same side of 1. */
  predicate Within(d: int, s: int) {
    if s > 1 then d == 1 || (Decade(d) && d <= s)
    else d == 1 || (Decade(-d) && s <= d)
  }

  lemma {:induction false} RoundWhole(x: real, n: int)
    requires x == n as real
    ensures Round(x) == n
  {
  }

  /** What is read back lies on the grid. */
  lemma {:induction false} DecodedOnGrid(n: int, s: int)
    requires IsScale(s) && Fits32(n)
    ensures OnGrid(Decoded(n, s), s) && Stored(Decoded(n, s), s) == n
  {
    Units(ScaleConv(s), n as real);
    hide ScaleConv, Round;
    RoundWhole(Decoded(n, s) / ScaleConv(s), n);
  }

  lemma {:induction false} Units(g: real, x: real)
    requires g > 0.0
    ensures (g * x) / g == x
  {
  }

  /** On the grid, storing and reading back is the identity. */
  lemma {:induction false} GridRoundTrip(val: real, s: int)
    requires OnGrid(val, s)
    ensures Decoded(Wrap32(Stored(val, s)), s) == val
  {
    var g := ScaleConv(s);
    assert val == g * (val / g);
  }

  // ------------------------------------------------- the scale of a value on a grid

  lemma {:induction false} DecimalValue(n: int, s: int)
    requires Decade(s)
    ensures s == 10 ==> Decoded(n, -s) == n as real / 10.0
    ensures s == 100 ==> Decoded(n, -s) == n as real / 100.0
    ensures s == 1000 ==> Decoded(n, -s) == n as real / 1000.0
    ensures s == 10000 ==> Decoded(n, -s) == n as real / 10000.0
  {
  }

  /** A value with few decimal places in numbers. */
  lemma {:induction false} DecimalFacts(n: int, s: int)
    requires Decade(s) && Fits32(n)
    ensures var v := Decoded(n, -s);
            Fits32(Trunc(v)) && Places(v) == n * Step(s)
  {
    StepIs(s);
    DecimalValue(n, s);
    var v := Decoded(n, -s);
    hide Decoded, Step, Round;
    assert -2147483648.0 <= v < 2147483648.0;
    if s == 10 {
      RoundWhole(v * 10000.0, n * 1000);
    } else if s == 100 {
      RoundWhole(v * 10000.0, n * 100);
    } else if s == 1000 {
      RoundWhole(v * 10000.0, n * 10);
    } else {
      RoundWhole(v * 10000.0, n);
    }
  }

  /** A value written with the scale -s gets a scale of its own that is no finer, and
      it lies on the grid of that scale too. */
  lemma {:induction false} RegridNegative(n: int, s: int)
    requires Decade(s) && Fits32(n)
    ensures var v := Decoded(n, -s);
            OnGrid(v, Descaled(v)) && Within(Descaled(v), -s)
    decreases s
  {
    var v := Decoded(n, -s);
    DecimalFacts(n, s);
    NotWantedAbove(n, s, v);
    WantedHere(n, s, v);
    if n % 10 != 0 {
      NeededHolds(v, s, n);
      hide Wanted, Holds, Trunc, OnGrid, Decoded, Places, Round;
      assert Descaled(v) == Fine(v);
      FineIs(v, s);
      DecodedOnGrid(n, -s);
    } else if s == 10 {
      DecimalValue(n, s);
      WholeIsOne(v, n / 10);
    } else {
      FewerPlaces(n, s);
      hide *;
      RegridNegative(n / 10, s / 10);
      assert Within(Descaled(v), -s) by {
        WithinMore(Descaled(v), s);
      }
    }
  }

  lemma {:induction false} WithinMore(d: int, s: int)
    requires Decade(s) && s > 10 && Within(d, -(s / 10))
    ensures Within(d, -s)
  {
  }

  lemma {:induction false} NotWantedAbove(n: int, s: int, v: real)
    requires Decade(s) && Places(v) == n * Step(s)
    ensures s < 10000 ==> !Wanted(v, 10000)
    ensures s < 1000 ==> !Wanted(v, 1000)
    ensures s < 100 ==> !Wanted(v, 100)
  {
    StepIs(s);
    WantedPlaces(v, 10000);
    WantedPlaces(v, 1000);
    WantedPlaces(v, 100);
    hide *;
    if s == 1000 {
      MultipleDivides(n, 10);
    } else if s == 100 {
      MultipleDivides(n * 10, 10);
      MultipleDivides(n, 100);
    } else if s == 10 {
      MultipleDivides(n * 100, 10);
      MultipleDivides(n * 10, 100);
      MultipleDivides(n, 1000);
    }
  }

  lemma {:induction false} WantedHere(n: int, s: int, v: real)
    requires Decade(s) && Places(v) == n * Step(s)
    ensures Wanted(v, s) <==> n % 10 != 0
  {
    StepIs(s);
    WantedPlaces(v, s);
    hide *;
    TimesMod(n, 1);
    TimesMod(n, 10);
    TimesMod(n, 100);
    TimesMod(n, 1000);
  }

  lemma {:induction false} TimesMod(n: int, m: nat)
    requires m > 0
    ensures (n * m) % (10 * m) == 0 <==> n % 10 == 0
  {
    var q, r := n / 10, n % 10;
    assert n * m == q * (10 * m) + r * m;
    MulKeepsOrder(r, 9, m);
    MulKeepsOrder(if r > 0 then 1 else 0, r, m);
    DivUnique(n * m, 10 * m, q, r * m);
  }

  lemma {:induction false} FewerPlaces(n: int, s: int)
    requires Decade(s) && s > 10 && n % 10 == 0
    ensures Decade(s / 10) && Decoded(n, -s) == Decoded(n / 10, -(s / 10))
  {
    var k := n / 10;
    assert n == 10 * k && n as real == 10.0 * k as real;
  }

  /** The same for a value written with a scale above 1. */
  lemma {:induction false} RegridPositive(n: int, p: int)
    requires Decade(p) && Fits32(n)
    ensures var v := Decoded(n, p);
            OnGrid(v, Descaled(v)) && Within(Descaled(v), p)
  {
    var v, w := Decoded(n, p), n * p;
    PositiveValue(n, p);
    if Fits32(w) {
      WholeIsOne(v, w);
    } else {
      var d, k := CoarseOfMultiple(n, p);
      PositiveValue(k, d);
      DecodedOnGrid(k, d);
      WholeTrunc(v, w);
      hide Trunc, OnGrid, Decoded, Coarse;
      assert Descaled(v) == d;
    }
  }

  lemma {:induction false} PositiveValue(n: int, p: int)
    requires p >= 1
    ensures Decoded(n, p) == (n * p) as real
  {
  }

  lemma {:induction false} WholeTrunc(v: real, w: int)
    requires v == w as real
    ensures Trunc(v) == w
  {
  }

  /** Whole numbers that fit need no scale. */
  lemma {:induction false} WholeIsOne(v: real, w: int)
    requires v == w as real && Fits32(w)
    ensures Descaled(v) == 1 && OnGrid(v, 1)
  {
    RoundWhole(v * 10000.0, w * 10000);
    RoundWhole(v, w);
    assert Trunc(v) == w && Digits(v) == 0;
  }

  lemma {:induction false} CoarseOfMultiple(n: int, p: int) returns (d: int, k: int)
    requires Decade(p) && Fits32(n) && !Fits32(n * p)
    ensures Decade(d) && d <= p && Coarse(n * p) == d && n * p == k * d && Fits32(k)
  {
    QuotExact(n, p);
    if p == 10 {
      d, k := 10, n;
    } else if p == 100 {
      QuotExact(n * 10, 10);
      hide Quot;
      d, k := if Fits32(n * 10) then 10 else 100, if Fits32(n * 10) then n * 10 else n;
    } else if p == 1000 {
      QuotExact(n * 100, 10);
      QuotExact(n * 10, 100);
      hide Quot;
      d := if Fits32(n * 100) then 10 else if Fits32(n * 10) then 100 else 1000;
      k := if Fits32(n * 100) then n * 100 else if Fits32(n * 10) then n * 10 else n;
    } else {
      QuotExact(n * 1000, 10);
      QuotExact(n * 100, 100);
      QuotExact(n * 10, 1000);
      hide Quot;
      d := if Fits32(n * 1000) then 10 else if Fits32(n * 100) then 100 else if Fits32(n * 10) then 1000 else 10000;
      k := if Fits32(n * 1000) then n * 1000 else if Fits32(n * 100) then n * 100 else if Fits32(n * 10) then n * 10 else n;
    }
  }

  lemma {:induction false} QuotExact(n: int, d: int)
    requires Decade(d)
    ensures Quot(n * d, d) == n
  {
    if n >= 0 {
      MultipleDivides(n, d);
    } else {
      MultipleDivides(-n, d);
    }
  }

  /** A value on the grid of a scale lies on the grid of its own scale, which is no
      more demanding. */
  lemma {:induction false} Regrid(val: real, s: int)
    requires IsScale(s) && OnGrid(val, s)
    ensures OnGrid(val, Descaled(val)) && Within(Descaled(val), s)
  {
    var n := Stored(val, s);
    GridRoundTrip(val, s);
    if Decade(s) {
      RegridPositive(n, s);
    } else if Decade(-s) {
      RegridNegative(n, -s);
    } else {
      WholeIsOne(val, n);
    }
  }

  /** Between its own scale and the one it was written with, a value stays on the
      grid. */
  lemma {:induction false} BetweenGrids(val: real, d: int, t: int, s: int)
    requires IsScale(s) && OnGrid(val, s) && OnGrid(val, d)
    requires Within(d, s) && Within(t, s) && Below(d, t)
    ensures OnGrid(val, t)
  {
    if t != d && t != s {
      GridValue(val, s);
      GridValue(val, d);
      if s > 1 {
        BetweenPositive(Stored(val, d), d, t, Stored(val, s), s);
      } else {
        BetweenNegative(Stored(val, d), if d == 1 then 1 else -d, -t, Stored(val, s), -s);
      }
    }
  }

  lemma {:induction false} GridValue(val: real, s: int)
    requires OnGrid(val, s)
    ensures val == Decoded(Stored(val, s), s) && Fits32(Stored(val, s))
  {
    GridRoundTrip(val, s);
  }

  lemma {:induction false} DecadeRatio(a: int, b: int) returns (i: nat)
    requires (a == 1 || Decade(a)) && Decade(b) && a <= b
    ensures i >= 1 && b == i * a
  {
    i := b / a;
  }

  lemma {:induction false} Smaller(k: int, i: nat, n: int)
    requires k * i == n && i >= 1 && Fits32(n)
    ensures Fits32(k)
  {
    if k >= 0 {
      MulKeepsOrder(1, i, k);
    } else {
      MulKeepsOrder(1, i, -k);
    }
  }

  lemma {:induction false} Cancel(a: int, b: int, m: nat)
    requires m > 0 && a * m == b * m
    ensures a == b
  {
    if a < b {
      MulKeepsOrder(a + 1, b, m);
    } else if b < a {
      MulKeepsOrder(b + 1, a, m);
    }
  }

  lemma {:induction false} Associate(a: int, b: int, c: int)
    ensures (a * b) * c == a * (b * c)
  {
  }

  /** Between two whole multiples of the value there is a third. */
  lemma {:induction false} FactorBetween(m: int, d: nat, t: nat, n: int, p: nat, i: nat, j: nat) returns (k: int)
    requires p == i * t && t == j * d && d > 0 && j > 0 && m * d == n * p && Fits32(m)
    ensures k * t == n * p && k * j == m && Fits32(k)
  {
    k := n * i;
    Associate(n, i, t);
    Associate(k, j, d);
    Cancel(k * j, m, d);
    Smaller(k, j, m);
  }

  lemma {:induction false} BetweenPositive(m: int, d: int, t: int, n: int, p: int)
    requires Decade(p) && Decade(t) && (d == 1 || Decade(d)) && d <= t <= p
    requires Fits32(m) && Fits32(n) && Decoded(m, d) == Decoded(n, p)
    ensures OnGrid(Decoded(n, p), t)
  {
    PositiveValue(m, d);
    PositiveValue(n, p);
    var i := DecadeRatio(t, p);
    var j := DecadeRatio(d, t);
    hide Decoded, OnGrid;
    var k := FactorBetween(m, d, t, n, p, i, j);
    PositiveValue(k, t);
    DecodedOnGrid(k, t);
  }

  lemma {:induction false} BetweenNegative(m: int, d: int, t: int, n: int, s: int)
    requires Decade(s) && Decade(t) && (d == 1 || Decade(d)) && d <= t <= s
    requires Fits32(m) && Fits32(n) && Decoded(m, if d == 1 then 1 else -d) == Decoded(n, -s)
    ensures OnGrid(Decoded(n, -s), -t)
  {
    var val := Decoded(n, -s);
    var i := DecadeRatio(t, s);
    var j := DecadeRatio(d, t);
    UnitTimes(n, s);
    UnitTimes(m, d);
    var k := DecimalBetween(val, m, d, t, n, s, i, j);
    UnitTimes(k, t);
    CancelReal(val, Decoded(k, -t), t);
    DecodedOnGrid(k, -t);
    hide *;
  }

  lemma {:induction false} DecimalBetween(val: real, m: int, d: int, t: int, n: int, s: int, i: nat, j: nat) returns (k: int)
    requires s == i * t && t == j * d && i >= 1 && Fits32(n)
    requires val * d as real == m as real && val * s as real == n as real
    ensures val * t as real == k as real && Fits32(k)
  {
    k := m * j;
    RealScale(val, d, j, t, m, k);
    var ki := k * i;
    RealScale(val, t, i, s, k, ki);
    assert ki == n;
    Smaller(k, i, n);
  }

  lemma {:induction false} RealScale(val: real, d: int, j: int, t: int, m: int, k: int)
    requires val * d as real == m as real && t == j * d && k == m * j
    ensures val * t as real == k as real
  {
    assert val * (j * d) as real == (val * d as real) * j as real;
  }

  lemma {:induction false} UnitTimes(n: int, s: int)
    requires s == 1 || Decade(s)
    ensures Decoded(n, if s == 1 then 1 else -s) * s as real == n as real
  {
  }

  lemma {:induction false} CancelReal(a: real, b: real, t: int)
    requires t > 0 && a * t as real == b * t as real
    ensures a == b
  {
    assert (a - b) * t as real == 0.0;
  }

  /** Values that were written with one scale can all be written, without loss, with
      the scale they come to share when they are written again. */
  lemma {:induction false} SharedGrid(vals: set<real>, s: int, t: int)
    requires IsScale(s) && forall v :: v in vals ==> OnGrid(v, s)
    requires IsShared(set v | v in vals :: Descaled(v), t)
    ensures IsScale(t) && forall v :: v in vals ==> OnGrid(v, t)
  {
    forall v | v in vals ensures OnGrid(v, t) {
      OnSharedGrid(vals, s, t, v);
    }
  }

  lemma {:induction false} OnSharedGrid(vals: set<real>, s: int, t: int, v: real)
    requires IsScale(s) && v in vals && forall v :: v in vals ==> OnGrid(v, s)
    requires IsShared(set v | v in vals :: Descaled(v), t)
    ensures OnGrid(v, t)
  {
    var scales := set v | v in vals :: Descaled(v);
    assert Descaled(v) in scales;
    Regrid(v, s);
    assert Within(t, s) by {
      if t in scales {
        var u :| u in vals && Descaled(u) == t;
        Regrid(u, s);
      }
    }
    BetweenGrids(v, Descaled(v), t, s);
  }

  /** Each of these two coordinates can be stored, but not both with the scale they
      share: the one that keeps most places is too fine for the larger value. */
  lemma {:induction false} SharedScaleCanOverflow()
    ensures var small, large := 0.1234, 300000.0;
            && Descaled(small) == -10000 && Fits32(Stored(small, -10000))
            && Descaled(large) == 1 && Fits32(Stored(large, 1))
            && Merge(Merge(1, Descaled(small)), Descaled(large)) == -10000
            && !Fits32(Stored(large, -10000))
  {
    FinestScale(1234);
    DecimalValue(1234, 10000);
    NegativeScale(300000.0, 10000);
    WholeIsOne(300000.0, 300000);
    RoundWhole(300000.0 * 10000.0, 3000000000);
    hide Descaled, Round, Decoded, ScaleConv;
  }

  /** A fourth decimal place in use asks for the finest scale. */
  lemma {:induction false} FinestScale(n: int)
    requires Fits32(n) && n % 10 != 0
    ensures Descaled(Decoded(n, -10000)) == -10000 && Fits32(Stored(Decoded(n, -10000), -10000))
  {
    var v := Decoded(n, -10000);
    DecimalFacts(n, 10000);
    WantedHere(n, 10000, v);
    NeededHolds(v, 10000, n);
    DecodedOnGrid(n, -10000);
    hide Wanted, Holds, Trunc, Decoded, Places, Round;
  }

  /** The scale chosen for a large value keeps its whole part in 32 bits before
      rounding; rounding can still carry it over the limit. */
  lemma {:induction false} CoarseCanOverflow()
    ensures Descaled(21474836475.0) == 10 && !Fits32(Stored(21474836475.0, 10))
  {
    WholeTrunc(21474836475.0, 21474836475);
  }
}
