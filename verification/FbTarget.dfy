/**
 kbd/fbtarget.js over the reals: the CSS size that fits the cap, and the integer
 supersampling factor that keeps the framebuffer within FB_MAX.
 */
module FbTargets {
  import opened Prelude

  const FB_MAX: real := 4096.0

  datatype Size = Size(w: real, h: real)

  /** The page globals the code consults: cap, fill flag and scale override. */
  datatype Env = Env(cap: Option<Size>, fill: bool, scaleOverride: Option<real>)

  datatype Target = Target(w: real, h: real, css: Size, scale: int)

  /** Math.round: halves go up. */
  function Round(x: real): int {
    (x + 0.5).Floor
  }

  function AtLeastOne(x: real): int {
    Max(1, Round(x))
  }

  function MinReal(a: real, b: real): real {
    if a <= b then a else b
  }

  predicate CapApplies(env: Env) {
    env.cap.Some? && env.cap.value.w > 0.0 && env.cap.value.h > 0.0
  }

  /** The aspect-preserving factor; `w` and `h` are the rounded request. */
  function Shrink(w: int, h: int, cap: Size): real
    requires w >= 1 && h >= 1
  {
    MinReal(1.0, MinReal(cap.w / w as real, cap.h / h as real))
  }

  function Scaled(n: int, s: real): real {
    n as real * s
  }

  function FillSize(w: int, h: int, s: real): Size {
    Size(AtLeastOne(Scaled(w, s)) as real, AtLeastOne(Scaled(h, s)) as real)
  }

  function Css(w: real, h: real, env: Env): Size {
    var rw, rh := AtLeastOne(w), AtLeastOne(h);
    if !CapApplies(env) then Size(rw as real, rh as real)
    else if !env.fill then Size(MinReal(rw as real, env.cap.value.w), MinReal(rh as real, env.cap.value.h))
    else FillSize(rw, rh, Shrink(rw, rh, env.cap.value))
  }

  predicate WithinLimit(css: Size, k: int) {
    css.w * k as real <= FB_MAX && css.h * k as real <= FB_MAX
  }

  // -------------------------------------------------------------- rounding lemmas

  /** Round picks the integer within half a unit, and only that one. */
  lemma RoundIsNearest(x: real, n: int)
    ensures Round(x) == n <==> x - 0.5 < n as real <= x + 0.5
  {
  }

  lemma IntegerIsFixed(n: int)
    requires n >= 1
    ensures AtLeastOne(n as real) == n
  {
    RoundIsNearest(n as real, n);
  }

  /** The shrink factor is the largest factor up to one under which both axes fit the cap. */
  lemma ShrinkIsLargest(w: int, h: int, cap: Size, s: real)
    requires w >= 1 && h >= 1 && cap.w > 0.0 && cap.h > 0.0
    ensures 0.0 < Shrink(w, h, cap) <= 1.0
    ensures s <= Shrink(w, h, cap) <==> s <= 1.0 && Scaled(w, s) <= cap.w && Scaled(h, s) <= cap.h
  {
    DivideIff(w as real, cap.w, s);
    DivideIff(h as real, cap.h, s);
  }

  lemma DivideIff(n: real, c: real, s: real)
    requires n > 0.0 && c > 0.0
    ensures c / n > 0.0 && (s <= c / n <==> n * s <= c) && n * (c / n) == c
  {
    var q := c / n;
    assert n * q == c;
    if s <= q {
      assert n * s <= n * q;
    } else {
      assert n * s > n * q;
    }
  }

  // ------------------------------------------------------------- what the CSS is

  /** The length `x` rounds to something inside the cap. */
  predicate RoundsWithin(x: real, cap: real) {
    cap >= 1.0 && x < cap.Floor as real + 0.5
  }

  lemma AxisFitsIff(x: real, cap: real)
    ensures AtLeastOne(x) as real <= cap <==> RoundsWithin(x, cap)
  {
    var r := Round(x);
    RoundIsNearest(x, r);
    assert r <= cap.Floor <==> r as real <= cap;
    assert r <= cap.Floor <==> x < cap.Floor as real + 0.5;
  }

  lemma FillFitsIff(w: int, h: int, s: real, cap: Size)
    ensures FillSize(w, h, s).w <= cap.w <==> RoundsWithin(Scaled(w, s), cap.w)
    ensures FillSize(w, h, s).h <= cap.h <==> RoundsWithin(Scaled(h, s), cap.h)
  {
    AxisFitsIff(Scaled(w, s), cap.w);
    AxisFitsIff(Scaled(h, s), cap.h);
  }

  /**
   Clipping always fits. Filling fits an axis exactly when the cap admits a pixel
   and the proportional length does not round above the cap's floor.
   */
  lemma CssFitsIff(w: real, h: real, env: Env)
    requires CapApplies(env)
    ensures var css, cap := Css(w, h, env), env.cap.value;
            var s := Shrink(AtLeastOne(w), AtLeastOne(h), cap);
            && (!env.fill ==> css.w <= cap.w && css.h <= cap.h)
            && (env.fill ==> (css.w <= cap.w <==> RoundsWithin(Scaled(AtLeastOne(w), s), cap.w)))
            && (env.fill ==> (css.h <= cap.h <==> RoundsWithin(Scaled(AtLeastOne(h), s), cap.h)))
  {
    FillFitsIff(AtLeastOne(w), AtLeastOne(h), Shrink(AtLeastOne(w), AtLeastOne(h), env.cap.value), env.cap.value);
  }

  predicate WholePixels(cap: Size) {
    cap.w == cap.w.Floor as real && cap.h == cap.h.Floor as real
  }

  /** A cap in whole pixels is always respected. */
  lemma WholeCapFits(w: real, h: real, env: Env)
    requires CapApplies(env) && WholePixels(env.cap.value)
    ensures Css(w, h, env).w <= env.cap.value.w && Css(w, h, env).h <= env.cap.value.h
  {
    var rw, rh, cap := AtLeastOne(w), AtLeastOne(h), env.cap.value;
    ShrinkIsLargest(rw, rh, cap, Shrink(rw, rh, cap));
    CssFitsIff(w, h, env);
  }

  /** A fractional cap can be exceeded in fill mode. */
  lemma FractionalCapExceeded()
    ensures var env := Env(Some(Size(100.6, 100.0)), true, None);
            CapApplies(env) && Css(200.0, 1.0, env).w == 101.0
  {
    RoundIsNearest(200.0, 200);
    RoundIsNearest(1.0, 1);
    var s := Shrink(200, 1, Size(100.6, 100.0));
    assert s == 0.503;
    RoundIsNearest(100.6, 101);
  }

  lemma ShrinkMeetsACap(w: int, h: int, cap: Size)
    requires w >= 1 && h >= 1 && cap.w > 0.0 && cap.h > 0.0 && Shrink(w, h, cap) < 1.0
    ensures Scaled(w, Shrink(w, h, cap)) == cap.w || Scaled(h, Shrink(w, h, cap)) == cap.h
  {
    DivideIff(w as real, cap.w, 1.0);
    DivideIff(h as real, cap.h, 1.0);
  }

  /** When filling shrinks, one axis is exactly its rounded cap; for a cap in whole pixels, the cap itself. */
  lemma OneAxisIsTight(w: real, h: real, env: Env)
    requires CapApplies(env) && env.fill && Shrink(AtLeastOne(w), AtLeastOne(h), env.cap.value) < 1.0
    ensures var css, cap := Css(w, h, env), env.cap.value;
            && (css.w == AtLeastOne(cap.w) as real || css.h == AtLeastOne(cap.h) as real)
            && (WholePixels(cap) ==> css.w == cap.w || css.h == cap.h)
  {
    ShrinkMeetsACap(AtLeastOne(w), AtLeastOne(h), env.cap.value);
    var cap := env.cap.value;
    if WholePixels(cap) {
      IntegerIsFixed(cap.w.Floor);
      IntegerIsFixed(cap.h.Floor);
    }
  }

  /** Within half a pixel of `x`, or one pixel when `x` is below a half. */
  predicate NearestPixel(n: real, x: real) {
    if x < 0.5 then n == 1.0 else x - 0.5 < n <= x + 0.5
  }

  lemma AtLeastOneIsNearest(x: real)
    ensures NearestPixel(AtLeastOne(x) as real, x)
  {
    RoundIsNearest(x, Round(x));
  }

  /** Each filled axis is within half a pixel of proportional, unless that would be below one pixel. */
  lemma FillKeepsAspect(w: real, h: real, env: Env)
    requires CapApplies(env) && env.fill
    ensures var css := Css(w, h, env);
            var s := Shrink(AtLeastOne(w), AtLeastOne(h), env.cap.value);
            NearestPixel(css.w, Scaled(AtLeastOne(w), s)) && NearestPixel(css.h, Scaled(AtLeastOne(h), s))
  {
    var s := Shrink(AtLeastOne(w), AtLeastOne(h), env.cap.value);
    AtLeastOneIsNearest(Scaled(AtLeastOne(w), s));
    AtLeastOneIsNearest(Scaled(AtLeastOne(h), s));
  }

  /** Whole pixels without a positive cap; with one, clipping takes the smaller of request and cap on each axis. */
  lemma CssAnswers(w: real, h: real, env: Env)
    ensures var css, n, m := Css(w, h, env), AtLeastOne(w) as real, AtLeastOne(h) as real;
            && NearestPixel(n, w) && NearestPixel(m, h)
            && (env.cap.None? || env.cap.value.w <= 0.0 || env.cap.value.h <= 0.0 ==> css == Size(n, m))
            && (env.cap.Some? && 0.0 < env.cap.value.w && 0.0 < env.cap.value.h && !env.fill ==>
                  && css.w <= n && css.w <= env.cap.value.w && (css.w == n || css.w == env.cap.value.w)
                  && css.h <= m && css.h <= env.cap.value.h && (css.h == m || css.h == env.cap.value.h))
  {
    AtLeastOneIsNearest(w);
    AtLeastOneIsNearest(h);
  }

  // ----------------------------------------------------------------- re-application

  /**
   Fitting `n` by `m` again keeps `n` exactly when neither its own cap nor the other
   axis's costs it more than half a pixel.
   */
  lemma RefitKeepsIff(n: int, m: int, cap: Size, s: real)
    requires n >= 1 && m >= 1 && cap.w > 0.0 && cap.h > 0.0 && s == Shrink(n, m, cap)
    ensures AtLeastOne(Scaled(n, s)) == n <==>
              n == 1 || (n as real - 0.5 <= cap.w && Scaled(n, m as real - cap.h) <= m as real / 2.0)
  {
    var x := 1.0 - 0.5 / n as real;
    HalfPixelLoss(n, x);
    ShrinkIsLargest(n, m, cap, s);
    ShrinkIsLargest(n, m, cap, x);
    ScaledMonotone(n, x, s);
    RoundIsNearest(Scaled(n, s), n);
    RoundIsNearest(Scaled(n, s), Round(Scaled(n, s)));
    ScaledMonotone(n, s, 0.0);
    ScaledMonotone(n, s, 1.0);
    assert 0.0 < Scaled(n, s) <= n as real;
    CrossMultiply(n, m, cap.h, x);
  }

  lemma HalfPixelLoss(n: int, x: real)
    requires n >= 1 && x == 1.0 - 0.5 / n as real
    ensures Scaled(n, x) == n as real - 0.5 && x <= 1.0
  {
    var q := 0.5 / n as real;
    assert n as real * q == 0.5;
    assert Scaled(n, x) == n as real * 1.0 - n as real * q;
  }

  lemma ScaledMonotone(n: int, x: real, y: real)
    requires n >= 1
    ensures x <= y <==> Scaled(n, x) <= Scaled(n, y)
  {
    if x <= y {
      assert n as real * x <= n as real * y;
    } else {
      assert n as real * x > n as real * y;
    }
  }

  lemma CrossMultiply(n: int, m: int, cap: real, x: real)
    requires n >= 1 && m >= 1 && Scaled(n, x) == n as real - 0.5
    ensures Scaled(m, x) <= cap <==> Scaled(n, m as real - cap) <= m as real / 2.0
  {
    calc {
      n as real * (m as real * x);
      m as real * (n as real * x);
      m as real * (n as real - 0.5);
      m as real * n as real - m as real / 2.0;
    }
    assert Scaled(n, m as real - cap) == n as real * m as real - n as real * cap;
    ScaledMonotone(n, Scaled(m, x), cap);
  }

  /** A clipped axis survives re-application exactly when the cap did not bind or does not round down. */
  predicate ClipStable(n: real, cap: real) {
    AtLeastOne(n) as real <= cap || cap <= AtLeastOne(cap) as real
  }

  lemma ClipAxisStableIff(n: real, cap: real)
    requires cap > 0.0
    ensures var c := MinReal(AtLeastOne(n) as real, cap);
            MinReal(AtLeastOne(c) as real, cap) == c <==> ClipStable(n, cap)
  {
    IntegerIsFixed(AtLeastOne(n));
  }

  /** How far the other axis may reach when this cap is overshot by rounding: half of N over N - cap. */
  function OvershootLimit(cap: real): real {
    var n := AtLeastOne(cap) as real;
    if n > cap then n / (2.0 * (n - cap)) else n
  }

  /**
   Seen from the proportional lengths of a filled size: rounding this axis does not
   overshoot its cap, or the other axis is a single pixel, or it is short enough for the
   overshoot to cost it no more than half a pixel.
   */
  predicate FillStable(length: real, cap: real, other: real) {
    RoundsWithin(length, cap) || other < 1.5 || RoundsWithin(other, OvershootLimit(cap))
  }

  lemma OnePixelIff(x: real)
    ensures AtLeastOne(x) == 1 <==> x < 1.5
  {
    RoundIsNearest(x, Round(x));
  }

  /** A proportional length within its cap that rounds beyond it rounds like the cap. */
  lemma OvershootIsRoundedCap(length: real, cap: real)
    requires 0.0 < length <= cap
    ensures AtLeastOne(length) == 1 || AtLeastOne(length) as real - 0.5 <= cap
    ensures AtLeastOne(length) as real > cap ==> AtLeastOne(length) == AtLeastOne(cap)
  {
    RoundIsNearest(length, Round(length));
    RoundIsNearest(cap, Round(cap));
  }

  /** The cost an overshoot of `m` over its cap has for `n` pixels of the other axis. */
  lemma OvershootCostIff(n: int, m: int, cap: real)
    requires n >= 1 && m >= 1 && m as real > cap && m == AtLeastOne(cap)
    ensures Scaled(n, m as real - cap) <= m as real / 2.0 <==> n as real <= OvershootLimit(cap)
  {
    var over := m as real - cap;
    var limit := m as real / (2.0 * over);
    assert limit * (2.0 * over) == m as real;
    assert limit * over == m as real / 2.0;
    if n as real <= limit {
      assert n as real * over <= limit * over;
    } else {
      assert n as real * over > limit * over;
    }
  }

  /** The refit condition of one axis in terms of the proportional lengths and the caps. */
  lemma AxisRefitIff(pn: real, pm: real, capN: real, capM: real)
    requires 0.0 < pn <= capN && 0.0 < pm <= capM
    ensures var n, m := AtLeastOne(pn), AtLeastOne(pm);
            (n == 1 || (n as real - 0.5 <= capN && Scaled(n, m as real - capM) <= m as real / 2.0)) <==>
            FillStable(pm, capM, pn)
  {
    var n, m := AtLeastOne(pn), AtLeastOne(pm);
    OnePixelIff(pn);
    OvershootIsRoundedCap(pn, capN);
    OvershootIsRoundedCap(pm, capM);
    AxisFitsIff(pm, capM);
    if m as real > capM {
      OvershootCostIff(n, m, capM);
      AxisFitsIff(pn, OvershootLimit(capM));
    } else {
      NoOvershootIsFree(n, m, capM);
    }
  }

  lemma NoOvershootIsFree(n: int, m: int, cap: real)
    requires n >= 1 && m >= 1 && m as real <= cap
    ensures Scaled(n, m as real - cap) <= m as real / 2.0
  {
    assert n as real * (m as real - cap) <= 0.0;
  }

  lemma CssOfWhole(n: int, m: int, env: Env)
    requires n >= 1 && m >= 1 && CapApplies(env) && env.fill
    ensures Css(n as real, m as real, env) == FillSize(n, m, Shrink(n, m, env.cap.value))
  {
    IntegerIsFixed(n);
    IntegerIsFixed(m);
  }

  /** Clip mode: exactly when applying the CSS computation to its own result changes nothing. */
  lemma ClipReappliesIff(w: real, h: real, env: Env)
    requires CapApplies(env) && !env.fill
    ensures var css := Css(w, h, env);
            Css(css.w, css.h, env) == css <==> ClipStable(w, env.cap.value.w) && ClipStable(h, env.cap.value.h)
  {
    ClipAxisStableIff(w, env.cap.value.w);
    ClipAxisStableIff(h, env.cap.value.h);
  }

  /**
   Fill mode, decided from the rounded request and the cap: exactly when neither axis
   rounds over its cap by so much that fitting again shortens the other one.
   */
  lemma FillReappliesIff(w: real, h: real, env: Env)
    requires CapApplies(env) && env.fill
    ensures var css, cap := Css(w, h, env), env.cap.value;
            var s := Shrink(AtLeastOne(w), AtLeastOne(h), cap);
            var pw, ph := Scaled(AtLeastOne(w), s), Scaled(AtLeastOne(h), s);
            Css(css.w, css.h, env) == css <==> FillStable(pw, cap.w, ph) && FillStable(ph, cap.h, pw)
  {
    var rw, rh, cap := AtLeastOne(w), AtLeastOne(h), env.cap.value;
    var s := Shrink(rw, rh, cap);
    ShrinkIsLargest(rw, rh, cap, s);
    ScaledPositive(rw, s);
    ScaledPositive(rh, s);
    RefitIff(Scaled(rw, s), Scaled(rh, s), cap);
    CssOfWhole(AtLeastOne(Scaled(rw, s)), AtLeastOne(Scaled(rh, s)), env);
  }

  lemma ScaledPositive(n: int, s: real)
    requires n >= 1 && s > 0.0
    ensures Scaled(n, s) > 0.0
  {
  }

  lemma SwappedShrink(n: int, m: int, cap: Size)
    requires n >= 1 && m >= 1
    ensures Shrink(m, n, Size(cap.h, cap.w)) == Shrink(n, m, cap)
  {
  }

  lemma RefitIff(pw: real, ph: real, cap: Size)
    requires 0.0 < pw <= cap.w && 0.0 < ph <= cap.h
    ensures var n, m := AtLeastOne(pw), AtLeastOne(ph);
            FillSize(n, m, Shrink(n, m, cap)) == Size(n as real, m as real) <==>
            FillStable(pw, cap.w, ph) && FillStable(ph, cap.h, pw)
  {
    var n, m := AtLeastOne(pw), AtLeastOne(ph);
    RefitKeepsIff(n, m, cap, Shrink(n, m, cap));
    SwappedShrink(n, m, cap);
    RefitKeepsIff(m, n, Size(cap.h, cap.w), Shrink(n, m, cap));
    AxisRefitIff(pw, ph, cap.w, cap.h);
    AxisRefitIff(ph, pw, cap.h, cap.w);
  }

  /** With a cap in whole pixels, or none, re-applying the computation changes nothing in either mode. */
  lemma WholeCapReapplies(w: real, h: real, env: Env)
    requires CapApplies(env) ==> WholePixels(env.cap.value)
    ensures var css := Css(w, h, env); Css(css.w, css.h, env) == css
  {
    if !CapApplies(env) {
      IntegerIsFixed(AtLeastOne(w));
      IntegerIsFixed(AtLeastOne(h));
    } else {
      var cap := env.cap.value;
      if env.fill {
        WholeCapFits(w, h, env);
        CssFitsIff(w, h, env);
        FillReappliesIff(w, h, env);
      } else {
        IntegerIsFixed(cap.w.Floor);
        IntegerIsFixed(cap.h.Floor);
        ClipReappliesIff(w, h, env);
      }
    }
  }

  /** A fractional cap that rounds down drifts when the computation is applied again. */
  lemma FractionalCapDrifts()
    ensures var env := Env(Some(Size(100.3, 100.0)), false, None);
            var css := Css(200.0, 50.0, env);
            CapApplies(env) && css == Size(100.3, 50.0) && Css(css.w, css.h, env) == Size(100.0, 50.0)
  {
    IntegerIsFixed(200);
    IntegerIsFixed(50);
    RoundIsNearest(100.3, 100);
  }

  /** In fill mode a fractional cap can shorten the other axis when the computation is applied again. */
  lemma FractionalCapShortens()
    ensures var env := Env(Some(Size(100.7, 10000.0)), true, None);
            CapApplies(env) && var css := Css(200.0, 10000.0, env); Css(css.w, css.h, env) != css
  {
    var cap := Size(100.7, 10000.0);
    IntegerIsFixed(200);
    IntegerIsFixed(10000);
    assert Shrink(200, 10000, cap) == 0.5035;
    RoundIsNearest(100.7, 101);
    assert OvershootLimit(100.7) < 200.0;
    FillReappliesIff(200.0, 10000.0, Env(Some(cap), true, None));
  }

  lemma CssIsPositive(w: real, h: real, env: Env)
    ensures Css(w, h, env).w > 0.0 && Css(w, h, env).h > 0.0
  {
  }

  /** The limit is on both products, at 4096 each. */
  lemma WithinLimitIff(css: Size, k: int)
    ensures WithinLimit(css, k) <==> css.w * k as real <= 4096.0 && css.h * k as real <= 4096.0
  {
  }

  /** The factors that respect the limit form an initial range, so the first one found from above is their maximum. */
  lemma WithinLimitIsDownward(css: Size, j: int, k: int)
    requires css.w >= 0.0 && css.h >= 0.0 && 1 <= j <= k && WithinLimit(css, k)
    ensures WithinLimit(css, j)
  {
    assert css.w * j as real <= css.w * k as real;
    assert css.h * j as real <= css.h * k as real;
  }

  // -------------------------------------------------------------------- the module

  class FbTargetModule {
    var scale: int

    constructor ()
      ensures scale == 1
    {
      scale := 1;
    }

    method SetFbScale(k: real) returns (r: int)
      modifies this
      ensures r == scale >= 1
      ensures k >= 0.5 ==> k - 0.5 < scale as real <= k + 0.5
      ensures k < 0.5 ==> scale == 1
    {
      scale := AtLeastOne(if k == 0.0 then 1.0 else k);
      r := scale;
    }

    /** The reassignments of the two CSS locals. */
    method CssSize(w: real, h: real, env: Env) returns (css: Size)
      ensures css == Css(w, h, env)
    {
      var rw, rh := AtLeastOne(w), AtLeastOne(h);
      css := Size(rw as real, rh as real);
      if CapApplies(env) {
        var cap := env.cap.value;
        if !env.fill {
          css := Size(MinReal(css.w, cap.w), MinReal(css.h, cap.h));
        } else {
          css := FillSize(rw, rh, Shrink(rw, rh, cap));
        }
      }
    }

    /** The countdown from the requested factor. */
    method LargestFactor(css: Size, request: int) returns (k: int)
      requires request >= 1
      ensures 1 <= k <= request && (WithinLimit(css, k) || k == 1)
      ensures forall j :: k < j <= request ==> !WithinLimit(css, j)
    {
      k := request;
      while k > 1 && !WithinLimit(css, k)
        invariant 1 <= k <= request
        invariant forall j :: k < j <= request ==> !WithinLimit(css, j)
      {
        k := k - 1;
      }
    }

    /**
     The framebuffer is the CSS size times an integer factor: the largest one up to
     the request that keeps both products within FB_MAX, or one if none does.
     */
    method FbTarget(w: real, h: real, env: Env) returns (t: Target)
      requires scale >= 1
      ensures t.css == Css(w, h, env)
      ensures t.w == t.css.w * t.scale as real && t.h == t.css.h * t.scale as real
      ensures var request := AtLeastOne(if env.scaleOverride.Some? then env.scaleOverride.value else scale as real);
              && 1 <= t.scale <= request
              && ((t.w <= 4096.0 && t.h <= 4096.0) || t.scale == 1)
              && (forall k :: t.scale < k <= request ==> !WithinLimit(t.css, k))
              && (t.w <= 4096.0 && t.h <= 4096.0 ==>
                    forall k :: 1 <= k <= request ==> (WithinLimit(t.css, k) <==> k <= t.scale))
    {
      var css := CssSize(w, h, env);
      var request := AtLeastOne(if env.scaleOverride.Some? then env.scaleOverride.value else scale as real);
      var k := LargestFactor(css, request);
      if WithinLimit(css, k) {
        CssIsPositive(w, h, env);
        forall j | 1 <= j <= k ensures WithinLimit(css, j) {
          WithinLimitIsDownward(css, j, k);
        }
      }
      t := Target(css.w * k as real, css.h * k as real, css, k);
    }
  }
}
