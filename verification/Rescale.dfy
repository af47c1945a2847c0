/** What happens to the mapped areas when the tablet scale or the screen size changes. */
module Rescale {
  import opened Pointer

  /** A size: tablet scale, or screen size. */
  datatype Size = Size(w: real, h: real) {
    predicate Positive() {
      w > 0.0 && h > 0.0
    }
  }

  function Scaled(r: Rect, from: Size, to: Size): (q: Rect)
    requires from.Positive()
  {
    Rect(r.x * (to.w / from.w), r.y * (to.h / from.h), r.w * (to.w / from.w), r.h * (to.h / from.h))
  }

  /** The proportion by which the source multiplies, or one when it leaves the mapping alone. */
  function Factor(from: real, to: real): (k: real)
    requires from > 0.0
  {
    if from == to then 1.0 else to / from
  }

  lemma {:induction false} FactorIsRatio(from: real, to: real)
    requires from > 0.0
    ensures Factor(from, to) == to / from
  {
  }

  lemma {:induction false} ScaledByFactors(r: Rect, from: Size, to: Size)
    requires from.Positive()
    ensures var kx, ky := Factor(from.w, to.w), Factor(from.h, to.h);
      Scaled(r, from, to) == Rect(r.x * kx, r.y * ky, r.w * kx, r.h * ky)
  {
    FactorIsRatio(from.w, to.w);
    FactorIsRatio(from.h, to.h);
  }

  /** The tablet's scale with the mapped tablet area, and the screen's size with the mapped
      screen area. */
  class Mapper {
    var xscale: int
    var yscale: int
    var tabletMapping: Rect
    var screenSize: Size
    var screenMapping: Rect

    constructor (x: int, y: int, tablet: Rect, size: Size, screen: Rect)
      ensures xscale == x && yscale == y && tabletMapping == tablet && screenSize == size && screenMapping == screen
    {
      xscale, yscale, tabletMapping, screenSize, screenMapping := x, y, tablet, size, screen;
    }

    ghost function Scale(): (s: Size)
      reads this
    {
      Size(xscale as real, yscale as real)
    }

    method ScaleAcross(h: int)
      requires xscale > 0 && h > 0
      modifies this`xscale, this`tabletMapping
      ensures xscale == h
      ensures var k, r := Factor(old(xscale) as real, h as real), old(tabletMapping);
        tabletMapping == r.(x := r.x * k, w := r.w * k)
    {
      if xscale != h {
        var propX := h as real / xscale as real;
        xscale := h;
        tabletMapping := tabletMapping.(x := tabletMapping.x * propX);
        tabletMapping := tabletMapping.(w := tabletMapping.w * propX);
      }
    }

    method ScaleDown(v: int)
      requires yscale > 0 && v > 0
      modifies this`yscale, this`tabletMapping
      ensures yscale == v
      ensures var k, r := Factor(old(yscale) as real, v as real), old(tabletMapping);
        tabletMapping == r.(y := r.y * k, h := r.h * k)
    {
      if yscale != v {
        var propY := v as real / yscale as real;
        yscale := v;
        tabletMapping := tabletMapping.(y := tabletMapping.y * propY);
        tabletMapping := tabletMapping.(h := tabletMapping.h * propY);
      }
    }

    method UpdateTabletScale(h: int, v: int)
      requires xscale > 0 && yscale > 0 && h > 0 && v > 0
      modifies this`xscale, this`yscale, this`tabletMapping
      ensures xscale == h && yscale == v
      ensures tabletMapping == Scaled(old(tabletMapping), old(Scale()), Scale())
    {
      hide Factor, Scaled;
      ScaledByFactors(tabletMapping, Scale(), Size(h as real, v as real));
      ScaleAcross(h);
      ScaleDown(v);
    }

    /** The displays now have the given bounds. */
    method ScreenChanged(size: Size)
      requires screenSize.Positive() && size.Positive()
      modifies this`screenSize, this`screenMapping
      ensures screenSize == size
      ensures screenMapping == Scaled(old(screenMapping), old(screenSize), size)
    {
      ScaledByFactors(screenMapping, screenSize, size);
      hide Scaled;
      var oldSize := screenSize;
      screenSize := size;
      if screenSize.w != oldSize.w {
        var propX := screenSize.w / oldSize.w;
        screenMapping := screenMapping.(x := screenMapping.x * propX);
        screenMapping := screenMapping.(w := screenMapping.w * propX);
      }
      if screenSize.h != oldSize.h {
        var propY := screenSize.h / oldSize.h;
        screenMapping := screenMapping.(y := screenMapping.y * propY);
        screenMapping := screenMapping.(h := screenMapping.h * propY);
      }
    }

    /** A whole history of scale reports leaves the mapping at the original times the last
        scale over the first. */
    method FollowScales(scales: seq<(int, int)>)
      requires xscale > 0 && yscale > 0 && forall i :: 0 <= i < |scales| ==> scales[i].0 > 0 && scales[i].1 > 0
      modifies this`xscale, this`yscale, this`tabletMapping
      ensures xscale > 0 && yscale > 0
      ensures scales != [] ==> (xscale, yscale) == scales[|scales| - 1]
      ensures tabletMapping == Scaled(old(tabletMapping), old(Scale()), Scale())
    {
      ghost var from, area := Scale(), tabletMapping;
      ScaledSame(area, from);
      for i := 0 to |scales|
        invariant xscale > 0 && yscale > 0
        invariant i > 0 ==> (xscale, yscale) == scales[i - 1]
        invariant tabletMapping == Scaled(area, from, Scale())
      {
        ghost var mid := Scale();
        UpdateTabletScale(scales[i].0, scales[i].1);
        ScaledTwice(area, from, mid, Scale());
      }
    }
  }

  lemma {:induction false} Ratios(v: real, a: real, b: real, c: real)
    requires a > 0.0 && b > 0.0
    ensures v * (b / a) * (c / b) == v * (c / a)
  {
    var p, q, r := b / a, c / b, c / a;
    assert p * a == b && q * b == c && r * a == c;
    assert p * q * a == r * a;
    assert p * q == r;
  }

  lemma {:induction false} ScaledTwice(r: Rect, a: Size, b: Size, c: Size)
    requires a.Positive() && b.Positive()
    ensures Scaled(Scaled(r, a, b), b, c) == Scaled(r, a, c)
  {
    Ratios(r.x, a.w, b.w, c.w);
    Ratios(r.y, a.h, b.h, c.h);
    Ratios(r.w, a.w, b.w, c.w);
    Ratios(r.h, a.h, b.h, c.h);
  }

  lemma {:induction false} ScaledSame(r: Rect, a: Size)
    requires a.Positive()
    ensures Scaled(r, a, a) == r
  {
    assert a.w / a.w == 1.0 && a.h / a.h == 1.0;
  }

  function Follow(r: Rect, sizes: seq<Size>): (q: Rect)
    requires sizes != [] && forall i :: 0 <= i < |sizes| ==> sizes[i].Positive()
  {
    if |sizes| == 1 then r
    else
      var n := |sizes| - 1;
      Scaled(Follow(r, sizes[..n]), sizes[n - 1], sizes[n])
  }

  /** Path independence: only the first and the last size matter, so coming back to the
      first restores the mapping. */
  lemma {:induction false} FollowIsDirect(r: Rect, sizes: seq<Size>)
    requires sizes != [] && forall i :: 0 <= i < |sizes| ==> sizes[i].Positive()
    ensures Follow(r, sizes) == Scaled(r, sizes[0], sizes[|sizes| - 1])
    ensures sizes[0] == sizes[|sizes| - 1] ==> Follow(r, sizes) == r
    decreases |sizes|
  {
    var n := |sizes| - 1;
    ScaledSame(r, sizes[0]);
    if n > 0 {
      FollowIsDirect(r, sizes[..n]);
      ScaledTwice(r, sizes[0], sizes[n - 1], sizes[n]);
    }
  }

  /** A pen position that scales with the tablet keeps its screen point, as long as neither
      position is held at the edge of the mapped area. */
  lemma {:induction false} ScreenPointIsStable(p: real, t: real, tside: real, s: real, sside: real, k: real)
    requires k > 0.0 && tside > 0.0
    requires t <= p <= t + tside - 1.0
    requires t * k <= p * k <= t * k + tside * k - 1.0
    ensures Absolute(p * k, t * k, tside * k, s, sside) == Absolute(p, t, tside, s, sside)
  {
    var d, ratio := p - t, sside / tside;
    assert tside * k > 0.0;
    assert p * k - t * k == d * k;
    var scaled := sside / (tside * k);
    assert scaled * (tside * k) == sside && ratio * tside == sside;
    assert (scaled * k) * tside == ratio * tside;
    assert scaled * k == ratio;
    assert d * k * scaled == d * ratio;
  }

  /** The same with the scaled numbers under names of their own. */
  lemma {:induction false} ScaledAxisKeepsPoint(p: real, t: real, tside: real, s: real, sside: real, k: real,
                                                q: real, qt: real, qside: real)
    requires k > 0.0 && tside > 0.0 && q == p * k && qt == t * k && qside == tside * k
    requires t <= p <= t + tside - 1.0 && qt <= q <= qt + qside - 1.0
    ensures qside != 0.0 && Absolute(q, qt, qside, s, sside) == Absolute(p, t, tside, s, sside)
  {
    assert tside * k > 0.0;
    ScreenPointIsStable(p, t, tside, s, sside, k);
  }

  /** On both axes of a mapped tablet area that is rescaled with its tablet: a pen that is
      not held at the edge before or after keeps its screen point. */
  lemma {:induction false} RescaledTabletKeepsPoint(x: real, y: real, r: Rect, from: Size, to: Size, s: Rect,
                                                    scaledX: real, scaledY: real)
    requires from.Positive() && to.Positive() && r.w > 0.0 && r.h > 0.0
    requires scaledX == x * (to.w / from.w) && scaledY == y * (to.h / from.h)
    requires var q := Scaled(r, from, to);
      && r.x <= x <= r.x + r.w - 1.0 && q.x <= scaledX <= q.x + q.w - 1.0
      && r.y <= y <= r.y + r.h - 1.0 && q.y <= scaledY <= q.y + q.h - 1.0
    ensures var q := Scaled(r, from, to);
      && q.w != 0.0 && q.h != 0.0
      && Absolute(scaledX, q.x, q.w, s.x, s.w) == Absolute(x, r.x, r.w, s.x, s.w)
      && Absolute(scaledY, q.y, q.h, s.y, s.h) == Absolute(y, r.y, r.h, s.y, s.h)
  {
    var kx, ky, q := to.w / from.w, to.h / from.h, Scaled(r, from, to);
    PositiveRatio(to.w, from.w);
    PositiveRatio(to.h, from.h);
    hide Absolute;
    ScaledAxisKeepsPoint(x, r.x, r.w, s.x, s.w, kx, scaledX, q.x, q.w);
    ScaledAxisKeepsPoint(y, r.y, r.h, s.y, s.h, ky, scaledY, q.y, q.h);
  }

  lemma {:induction false} ScaledShare(d: real, tside: real, s: real, sside: real, k: real)
    requires tside != 0.0
    ensures s * k + d * (sside * k / tside) == (s + d * (sside / tside)) * k
  {
    assert sside * k / tside == sside / tside * k;
  }

  /** A pen keeps its place in proportion when the screen area is rescaled with its screen. */
  lemma {:induction false} RescaledScreenScalesPoint(x: real, y: real, t: Rect, r: Rect, from: Size, to: Size)
    requires from.Positive() && t.w != 0.0 && t.h != 0.0
    ensures var q := Scaled(r, from, to);
      && Absolute(x, t.x, t.w, q.x, q.w) == Absolute(x, t.x, t.w, r.x, r.w) * (to.w / from.w)
      && Absolute(y, t.y, t.h, q.y, q.h) == Absolute(y, t.y, t.h, r.y, r.h) * (to.h / from.h)
  {
    hide ClampPen;
    ScaledShare(ClampPen(x, t.x, t.w) - t.x, t.w, r.x, r.w, to.w / from.w);
    ScaledShare(ClampPen(y, t.y, t.h) - t.y, t.h, r.y, r.h, to.h / from.h);
  }
}
