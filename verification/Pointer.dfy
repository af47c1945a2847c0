/** Where the pointer goes: the tablet-to-screen arithmetic, in exact numbers. */
module Pointer {
  import opened Arith
  import opened Stylus
  import opened Events

  datatype Rect = Rect(x: real, y: real, w: real, h: real)

  /** Mapped screen and tablet areas, the bounds of all screens, and mouse mode. */
  datatype Areas = Areas(screen: Rect, tablet: Rect, boundsX: int, boundsY: int, boundsW: real, boundsH: real,
                         mouseMode: bool, scaling: real)

  /** Conversion to an integer truncates toward zero. */
  function Trunc(r: real): (n: int) {
    if r >= 0.0 then r.Floor else -(-r).Floor
  }

  function ClampPen(p: real, origin: real, side: real): (q: real) {
    var low := if p < origin then origin else p;
    if low > origin + side - 1.0 then origin + side - 1.0 else low
  }

  /** One axis in absolute mode. */
  function Absolute(p: real, t: real, tside: real, s: real, sside: real): (n: real)
    requires tside != 0.0
  {
    s + (ClampPen(p, t, tside) - t) * (sside / tside)
  }

  /** A coordinate held within the size of the mapped side. */
  function Held(n: real, sside: real): (h: real) {
    var low := if n < 0.0 then 0.0 else n;
    if low >= sside then sside - 1.0 else low
  }

  /** One axis in mouse mode. */
  function Relative(last: int, bounds: int, motion: int, mult: real, sside: real): (n: real) {
    Held((last - bounds) as real + motion as real * mult, sside)
  }

  function MouseMultiplier(a: Areas): (mult: real)
    requires a.tablet.w != 0.0 && a.tablet.h != 0.0
  {
    var h, v := a.boundsW / a.tablet.w, a.boundsH / a.tablet.h;
    a.scaling * ((if h < v then h else v) * 2.0)
  }

  /** The screen position of the pen. */
  function Target(a: Areas, pen: Pen, last: Point): (to: Point)
    requires a.tablet.w != 0.0 && a.tablet.h != 0.0
  {
    var mult := MouseMultiplier(a);
    var nx := if a.mouseMode then Relative(last.x, a.boundsX, pen.motionX, mult, a.screen.w)
              else Absolute(pen.x as real, a.tablet.x, a.tablet.w, a.screen.x, a.screen.w);
    var ny := if a.mouseMode then Relative(last.y, a.boundsY, pen.motionY, mult, a.screen.h)
              else Absolute(pen.y as real, a.tablet.y, a.tablet.h, a.screen.y, a.screen.h);
    Point(Trunc(nx) + a.boundsX, Trunc(ny) + a.boundsY)
  }

  // ---- absolute mode on integral areas ----

  /** The column, counted from the screen edge, of a pen at distance d from the tablet edge. */
  function Column(d: nat, tside: nat, sside: nat): (c: nat)
    requires tside > 0
  {
    d * sside / tside
  }

  lemma {:induction false} ColumnInside(d: nat, tside: nat, sside: nat)
    requires d < tside && sside > 0
    ensures Column(d, tside, sside) < sside
  {
    Times(d + 1, tside, sside);
    DivLess(d * sside, tside, sside);
  }

  /** The pen position that reaches a column, when there is one. */
  function PenFor(c: nat, tside: nat, sside: nat): (d: nat)
    requires sside > 0
  {
    (c * tside + sside - 1) / sside
  }

  lemma {:induction false} PenForBounds(c: nat, tside: nat, sside: nat)
    requires sside > 0
    ensures var d := PenFor(c, tside, sside); c * tside <= d * sside < c * tside + sside
  {
    var a := c * tside + sside - 1;
    assert a / sside * sside <= a < a / sside * sside + sside;
  }

  lemma {:induction false} ColumnReached(c: nat, tside: nat, sside: nat)
    requires c < sside <= tside
    ensures PenFor(c, tside, sside) < tside && Column(PenFor(c, tside, sside), tside, sside) == c
  {
    var d := PenFor(c, tside, sside);
    PenForBounds(c, tside, sside);
    assert (c + 1) * tside == c * tside + tside;
    Times(c + 1, sside, tside);
    DivLess(c * tside + sside - 1, sside, tside);
    DivAtLeast(d * sside, tside, c);
    DivLess(d * sside, tside, c + 1);
  }

  /** On a screen wider than the tablet the last column stays out of reach. */
  lemma {:induction false} LastColumnMissed(d: nat, tside: nat, sside: nat)
    requires d < tside < sside
    ensures Column(d, tside, sside) < sside - 1
  {
    Times(d + 1, tside, sside);
    assert (sside - 1) * tside == tside * sside - tside;
    DivLess(d * sside, tside, sside - 1);
  }

  // ---- the axis the code computes ----

  /** Absolute mode on integral areas, truncated to a screen coordinate. */
  function Axis(p: int, t: int, tside: nat, s: int, sside: nat): (n: int)
    requires tside > 0
  {
    Trunc(Absolute(p as real, t as real, tside as real, s as real, sside as real))
  }

  /** Distance from the tablet edge of a pen held inside the mapped area. */
  function Distance(p: int, t: int, tside: nat): (d: nat)
    requires tside > 0
  {
    if p < t then 0 else if p > t + tside - 1 then tside - 1 else p - t
  }

  lemma {:induction false} RealScale(a: real, b: real, m: real)
    requires a <= b && m >= 0.0
    ensures a * m <= b * m
  {
    assert (b - a) * m >= 0.0;
  }

  lemma {:induction false} UnitShare(w: real, m: real, r: real)
    requires m > 0.0 && w * m == r && 0.0 <= r < m
    ensures 0.0 <= w < 1.0 && (w == 0.0 <==> r == 0.0)
  {
    if w >= 1.0 {
      RealScale(1.0, w, m);
    }
  }

  lemma {:induction false} RealQuotient(a: nat, m: nat, b: nat)
    requires m > 0
    ensures var v := a as real * (b as real / m as real); var q, r := a * b / m, a * b % m;
      q as real <= v < q as real + 1.0 && (v == q as real <==> r == 0)
  {
    var v := a as real * (b as real / m as real);
    var q, r := a * b / m, a * b % m;
    assert a * b == q * m + r;
    assert v * m as real == (a * b) as real;
    assert (a * b) as real == q as real * m as real + r as real;
    UnitShare(v - q as real, m as real, r as real);
  }

  lemma {:induction false} TruncOfSum(s: int, v: real, q: int)
    requires q as real <= v < q as real + 1.0
    ensures Trunc(s as real + v) == s + q + if s + q < 0 && v != q as real then 1 else 0
  {
    var w := s as real + v;
    assert (s + q) as real <= w < (s + q) as real + 1.0;
    if w < 0.0 {
      var f := (-w).Floor;
      assert f as real <= -w < f as real + 1.0;
    }
  }

  lemma {:induction false} ClampDistance(p: int, t: int, tside: nat)
    requires tside > 0
    ensures ClampPen(p as real, t as real, tside as real) - t as real == Distance(p, t, tside) as real
  {
  }

  lemma {:induction false} AbsoluteAt(p: int, t: int, tside: nat, s: int, sside: nat)
    requires tside > 0
    ensures Absolute(p as real, t as real, tside as real, s as real, sside as real)
            == s as real + Distance(p, t, tside) as real * (sside as real / tside as real)
  {
    ClampDistance(p, t, tside);
    hide Distance, ClampPen;
  }

  /** Truncation moves a negative fractional coordinate one column to the right. */
  lemma {:induction false} AxisValue(p: int, t: int, tside: nat, s: int, sside: nat)
    requires tside > 0
    ensures var d := Distance(p, t, tside); var q := Column(d, tside, sside);
      Axis(p, t, tside, s, sside) == s + q + if s + q < 0 && d * sside % tside != 0 then 1 else 0
  {
    var d := Distance(p, t, tside);
    AbsoluteAt(p, t, tside, s, sside);
    RealQuotient(d, tside, sside);
    TruncOfSum(s, d as real * (sside as real / tside as real), Column(d, tside, sside));
    hide Distance, Absolute, Trunc;
  }

  lemma {:induction false} DistanceInside(p: int, t: int, tside: nat)
    requires tside > 0
    ensures Distance(p, t, tside) < tside
  {
  }

  predicate Inside(n: int, s: int, sside: nat) {
    s <= n < s + sside
  }

  /** Every pen position lands inside the mapped screen side, except when the side lies
      left of the origin altogether and is shorter than the tablet side. */
  lemma {:induction false} AxisStaysInside(t: int, tside: nat, s: int, sside: nat)
    requires tside > 0 && sside > 0
    ensures (forall p: int :: Inside(Axis(p, t, tside, s, sside), s, sside)) <==> s + sside >= 1 || sside >= tside
  {
    hide Axis, Inside;
    if s + sside >= 1 || sside >= tside {
      forall p: int ensures Inside(Axis(p, t, tside, s, sside), s, sside) {
        AxisInside(p, t, tside, s, sside);
      }
    } else {
      AxisOvershoots(t, tside, s, sside);
      assert !Inside(Axis(t + tside - 1, t, tside, s, sside), s, sside);
    }
  }

  lemma {:induction false} AxisOvershoots(t: int, tside: nat, s: int, sside: nat)
    requires 0 < sside < tside && s + sside < 1
    ensures !Inside(Axis(t + tside - 1, t, tside, s, sside), s, sside)
  {
    assert (tside - 1) * sside == (sside - 1) * tside + (tside - sside);
    QuotientIs((tside - 1) * sside, tside, sside - 1, tside - sside);
    AxisValue(t + tside - 1, t, tside, s, sside);
    hide Axis;
  }

  lemma {:induction false} AxisInside(p: int, t: int, tside: nat, s: int, sside: nat)
    requires tside > 0 && sside > 0 && (s + sside >= 1 || sside >= tside)
    ensures Inside(Axis(p, t, tside, s, sside), s, sside)
  {
    hide Axis, Distance;
    var d := Distance(p, t, tside);
    DistanceInside(p, t, tside);
    AxisValue(p, t, tside, s, sside);
    ColumnInside(d, tside, sside);
    if sside > tside {
      LastColumnMissed(d, tside, sside);
    } else if sside == tside {
      QuotientIs(d * sside, tside, d, 0);
    }
  }

  lemma {:induction false} TruncMonotone(a: real, b: real)
    requires a <= b
    ensures Trunc(a) <= Trunc(b)
  {
  }

  lemma {:induction false} ClampMonotone(p: real, q: real, t: real, tside: real)
    requires p <= q
    ensures ClampPen(p, t, tside) - t <= ClampPen(q, t, tside) - t
  {
  }

  lemma {:induction false} PositiveRatio(a: real, b: real)
    requires a > 0.0 && b > 0.0
    ensures a / b > 0.0
  {
  }

  lemma {:induction false} StretchMonotone(d: real, e: real, ratio: real, s: real)
    requires d <= e && ratio > 0.0
    ensures Trunc(s + d * ratio) <= Trunc(s + e * ratio)
  {
    RealScale(d, e, ratio);
    TruncMonotone(s + d * ratio, s + e * ratio);
    hide Trunc;
  }

  /** Each axis is monotone, over real areas too. */
  lemma {:induction false} AxisMonotone(p: real, q: real, t: real, tside: real, s: real, sside: real)
    requires p <= q && tside > 0.0 && sside > 0.0
    ensures Trunc(Absolute(p, t, tside, s, sside)) <= Trunc(Absolute(q, t, tside, s, sside))
  {
    ClampMonotone(p, q, t, tside);
    PositiveRatio(sside, tside);
    hide ClampPen, Trunc;
    var d, e, ratio := ClampPen(p, t, tside) - t, ClampPen(q, t, tside) - t, sside / tside;
    assert Absolute(p, t, tside, s, sside) == s + d * ratio;
    assert Absolute(q, t, tside, s, sside) == s + e * ratio;
    StretchMonotone(d, e, ratio, s);
  }

  ghost predicate Reached(c: int, t: int, tside: nat, s: int, sside: nat)
    requires tside > 0
  {
    exists p: int :: Axis(p, t, tside, s, sside) == c
  }

  /** The pen positions with a column, or just left of it: what truncation maps to one
      column left of the origin. */
  function PenBefore(c: nat, tside: nat, sside: nat): (d: nat)
    requires sside > 0
  {
    c * tside / sside
  }

  lemma {:induction false} PenBeforeBounds(c: nat, tside: nat, sside: nat)
    requires 0 < c < sside <= tside
    ensures var d := PenBefore(c, tside, sside);
      d < tside && (c - 1) * tside < d * sside <= c * tside
  {
    var d := PenBefore(c, tside, sside);
    assert d * sside <= c * tside < d * sside + sside;
    assert (c - 1) * tside == c * tside - tside;
    Times(c + 1, sside, tside);
    assert (c + 1) * tside == c * tside + tside;
    DivLess(c * tside, sside, tside);
  }

  lemma {:induction false} NegativeColumnReached(t: int, tside: nat, s: int, sside: nat, c: nat)
    requires c < sside <= tside && s + c <= 0
    ensures Reached(s + c, t, tside, s, sside)
  {
    var d := if c == 0 then 0 else PenBefore(c, tside, sside);
    if c > 0 {
      PenBeforeBounds(c, tside, sside);
      if d * sside == c * tside {
        QuotientIs(d * sside, tside, c, 0);
      } else {
        assert (c - 1) * tside == c * tside - tside;
        QuotientIs(d * sside, tside, c - 1, d * sside - (c - 1) * tside);
      }
    }
    AxisValue(t + d, t, tside, s, sside);
    assert Axis(t + d, t, tside, s, sside) == s + c;
  }

  lemma {:induction false} ColumnAtPen(t: int, tside: nat, s: int, sside: nat, c: nat)
    requires c < sside <= tside && s + c >= 0
    ensures Reached(s + c, t, tside, s, sside)
  {
    var d := PenFor(c, tside, sside);
    ColumnReached(c, tside, sside);
    AxisValue(t + d, t, tside, s, sside);
    assert Axis(t + d, t, tside, s, sside) == s + c;
  }

  /** A column that no pen position reaches when the side is longer than the tablet side:
      the last one, or left of the origin the second. */
  lemma {:induction false} ColumnMissed(p: int, t: int, tside: nat, s: int, sside: nat)
    requires 0 < tside < sside
    ensures Axis(p, t, tside, s, sside) != if s + sside >= 2 then s + sside - 1 else s + 1
  {
    hide Axis, Distance;
    var d := Distance(p, t, tside);
    DistanceInside(p, t, tside);
    AxisValue(p, t, tside, s, sside);
    LastColumnMissed(d, tside, sside);
    if s + sside < 2 && d > 0 {
      Times(1, d, sside);
      DivAtLeast(d * sside, tside, 1);
      if d * sside / tside == 1 && d * sside % tside == 0 {
        assert false;
      }
    }
  }

  /** Every column of the mapped side can be reached if and only if it is no longer than
      the tablet side, wherever it lies. */
  lemma {:induction false} AxisReachesAll(t: int, tside: nat, s: int, sside: nat)
    requires tside > 0 && sside > 0
    ensures (forall c: int :: Inside(c, s, sside) ==> Reached(c, t, tside, s, sside)) <==> sside <= tside
  {
    hide Axis;
    if sside <= tside {
      forall c: int | Inside(c, s, sside) ensures Reached(c, t, tside, s, sside) {
        if c >= 0 {
          ColumnAtPen(t, tside, s, sside, c - s);
        } else {
          NegativeColumnReached(t, tside, s, sside, c - s);
        }
        assert s + (c - s) == c;
      }
    } else {
      var c := if s + sside >= 2 then s + sside - 1 else s + 1;
      forall p: int ensures Axis(p, t, tside, s, sside) != c {
        ColumnMissed(p, t, tside, s, sside);
      }
      assert Inside(c, s, sside) && !Reached(c, t, tside, s, sside);
    }
  }

  // ---- any areas, fractional ones included ----

  predicate Within(v: real, s: real, sside: real) {
    s <= v < s + sside
  }

  lemma {:induction false} ClampedDistance(p: real, t: real, tside: real)
    requires tside >= 1.0
    ensures 0.0 <= ClampPen(p, t, tside) - t < tside
  {
  }

  lemma {:induction false} ShareInside(d: real, tside: real, sside: real)
    requires 0.0 <= d < tside && sside > 0.0
    ensures 0.0 <= d * (sside / tside) < sside
  {
    var ratio := sside / tside;
    PositiveRatio(sside, tside);
    assert tside * ratio == sside;
    RealScale(0.0, d, ratio);
    assert (tside - d) * ratio > 0.0;
  }

  /** Before truncation every pen position is mapped into the screen area, if and only if
      the tablet area is at least one unit long. */
  lemma {:induction false} AbsoluteStaysInside(t: real, tside: real, s: real, sside: real)
    requires tside > 0.0 && sside > 0.0
    ensures (forall p: real :: Within(Absolute(p, t, tside, s, sside), s, sside)) <==> tside >= 1.0
  {
    if tside >= 1.0 {
      forall p: real ensures Within(Absolute(p, t, tside, s, sside), s, sside) {
        ClampedDistance(p, t, tside);
        hide ClampPen;
        var d := ClampPen(p, t, tside) - t;
        ShareInside(d, tside, sside);
        assert Absolute(p, t, tside, s, sside) == s + d * (sside / tside);
      }
    } else {
      ShortAreaFails(t, tside, s, sside);
      assert !Within(Absolute(t, t, tside, s, sside), s, sside);
    }
  }

  lemma {:induction false} ShortAreaFails(t: real, tside: real, s: real, sside: real)
    requires 0.0 < tside < 1.0 && sside > 0.0
    ensures Absolute(t, t, tside, s, sside) < s
  {
    PositiveRatio(sside, tside);
    assert ClampPen(t, t, tside) - t < 0.0;
    hide ClampPen;
    var d, ratio := ClampPen(t, t, tside) - t, sside / tside;
    assert Absolute(t, t, tside, s, sside) == s + d * ratio;
    NegativeShare(d, ratio);
  }

  lemma {:induction false} NegativeShare(d: real, ratio: real)
    requires d < 0.0 && ratio > 0.0
    ensures d * ratio < 0.0
  {
  }

  /** A screen coordinate that shows a point of the mapped side. */
  ghost predicate Shown(n: int, s: real, sside: real) {
    exists v: real :: Within(v, s, sside) && n == Trunc(v)
  }

  /** A position that lies in the mapped screen area. */
  ghost predicate InArea(a: Areas, to: Point) {
    Shown(to.x - a.boundsX, a.screen.x, a.screen.w) && Shown(to.y - a.boundsY, a.screen.y, a.screen.h)
  }

  predicate Mappable(a: Areas) {
    a.tablet.w >= 1.0 && a.tablet.h >= 1.0 && a.screen.w > 0.0 && a.screen.h > 0.0
  }

  /** Whatever the pen does, in absolute mode the pointer is in the mapped screen area. */
  lemma {:induction false} TargetInside(a: Areas, pen: Pen, last: Point)
    requires !a.mouseMode && Mappable(a)
    ensures InArea(a, Target(a, pen, last))
  {
    hide Absolute, Trunc;
    AbsoluteStaysInside(a.tablet.x, a.tablet.w, a.screen.x, a.screen.w);
    AbsoluteStaysInside(a.tablet.y, a.tablet.h, a.screen.y, a.screen.h);
    var nx := Absolute(pen.x as real, a.tablet.x, a.tablet.w, a.screen.x, a.screen.w);
    var ny := Absolute(pen.y as real, a.tablet.y, a.tablet.h, a.screen.y, a.screen.h);
    assert Within(nx, a.screen.x, a.screen.w) && Within(ny, a.screen.y, a.screen.h);
    var to := Target(a, pen, last);
    assert to.x - a.boundsX == Trunc(nx) && to.y - a.boundsY == Trunc(ny);
  }

  predicate Integral(a: Areas, sx: int, sy: int, sw: nat, sh: nat, tx: int, ty: int, tw: nat, th: nat) {
    && a.screen == Rect(sx as real, sy as real, sw as real, sh as real)
    && a.tablet == Rect(tx as real, ty as real, tw as real, th as real)
  }

  predicate PixelInside(a: Areas, pen: Pen, last: Point, sx: int, sy: int, sw: nat, sh: nat)
    requires a.tablet.w != 0.0 && a.tablet.h != 0.0
  {
    var to := Target(a, pen, last);
    Inside(to.x - a.boundsX, sx, sw) && Inside(to.y - a.boundsY, sy, sh)
  }

  /** On integral areas, wherever they lie, every pen gives a pixel of the mapped rectangle,
      if and only if no side lies left of or above the origin altogether while being
      shorter than its tablet side. */
  lemma {:induction false} PixelsStayInside(a: Areas, last: Point, sx: int, sy: int, sw: nat, sh: nat,
                                            tx: int, ty: int, tw: nat, th: nat)
    requires !a.mouseMode && sw > 0 && sh > 0 && tw > 0 && th > 0
    requires Integral(a, sx, sy, sw, sh, tx, ty, tw, th)
    ensures (forall pen: Pen :: PixelInside(a, pen, last, sx, sy, sw, sh))
            <==> (sx + sw >= 1 || sw >= tw) && (sy + sh >= 1 || sh >= th)
  {
    forall pen: Pen
      ensures PixelInside(a, pen, last, sx, sy, sw, sh)
              <==> Inside(Axis(pen.x, tx, tw, sx, sw), sx, sw) && Inside(Axis(pen.y, ty, th, sy, sh), sy, sh)
    {
      hide Absolute, Trunc, Inside;
    }
    AxisStaysInside(tx, tw, sx, sw);
    AxisStaysInside(ty, th, sy, sh);
    hide Axis, Inside, PixelInside;
    if !(sx + sw >= 1 || sw >= tw) {
      var p :| !Inside(Axis(p, tx, tw, sx, sw), sx, sw);
      assert !PixelInside(a, AT_REST.(x := p), last, sx, sy, sw, sh);
    } else if !(sy + sh >= 1 || sh >= th) {
      var p :| !Inside(Axis(p, ty, th, sy, sh), sy, sh);
      assert !PixelInside(a, AT_REST.(y := p), last, sx, sy, sw, sh);
    }
  }

  /** Mouse mode, truncated to a screen coordinate. */
  function MouseAxis(last: int, bounds: int, motion: int, mult: real, sside: nat): (n: int) {
    Trunc(Relative(last, bounds, motion, mult, sside as real))
  }

  /** In mouse mode the pointer keeps to the size of the mapped side but not to its place:
      it stays inside for every motion exactly when the side starts at the screen edge. */
  lemma {:induction false} MouseModeIgnoresOrigin(bounds: int, mult: real, s: int, sside: nat)
    requires sside > 0
    ensures forall last: int, motion: int :: 0 <= MouseAxis(last, bounds, motion, mult, sside) < sside
    ensures (forall last: int, motion: int :: Inside(MouseAxis(last, bounds, motion, mult, sside), s, sside))
            <==> s == 0
  {
    forall last: int, motion: int ensures 0 <= MouseAxis(last, bounds, motion, mult, sside) < sside {
      var n := Relative(last, bounds, motion, mult, sside as real);
      assert 0.0 <= n < sside as real;
    }
    if s != 0 {
      var last := if s > 0 then bounds else bounds + sside - 1;
      assert 0 as real * mult == 0.0;
      assert Relative(last, bounds, 0, mult, sside as real) == (last - bounds) as real;
      assert MouseAxis(last, bounds, 0, mult, sside) == last - bounds;
    }
  }

  // ---- motion in mouse mode ----

  /** A screen coordinate that follows a way from another one: in proportion while that
      stays on the mapped side, and else at the end it was carried past. */
  predicate Carried(n: int, from: int, way: int, rate: real, sside: real) {
    var wish := from as real + way as real * rate;
    if wish < 0.0 then n == 0
    else if wish >= sside then n as real <= sside - 1.0 < n as real + 1.0
    else n as real <= wish < n as real + 1.0
  }

  /** The same on both axes, at the rate of mouse mode. */
  ghost predicate CarriedBy(a: Areas, to: Point, last: Point, way: (int, int))
    requires a.tablet.w != 0.0 && a.tablet.h != 0.0
  {
    && Carried(to.x - a.boundsX, last.x - a.boundsX, way.0, MouseMultiplier(a), a.screen.w)
    && Carried(to.y - a.boundsY, last.y - a.boundsY, way.1, MouseMultiplier(a), a.screen.h)
  }

  /** Without a way a pointer on the mapped side stays. */
  lemma {:induction false} CarriedNowhere(n: int, from: int, rate: real, sside: real)
    requires 0 <= from && from as real < sside && Carried(n, from, 0, rate, sside)
    ensures n == from
  {
    assert 0 as real * rate == 0.0;
  }

  lemma {:induction false} TruncOfPositive(r: real, n: int)
    requires r >= 0.0
    ensures Trunc(r) == n <==> n as real <= r < n as real + 1.0
  {
  }

  lemma {:induction false} RelativeCarries(last: int, bounds: int, motion: int, mult: real, sside: real)
    requires sside >= 1.0
    ensures Carried(Trunc(Relative(last, bounds, motion, mult, sside)), last - bounds, motion, mult, sside)
  {
    var wish := (last - bounds) as real + motion as real * mult;
    var n := Relative(last, bounds, motion, mult, sside);
    TruncOfPositive(n, Trunc(n));
    hide Trunc;
  }

  /** In mouse mode the pointer is carried on from the last position by the pen's motion. */
  lemma {:induction false} MouseCarries(a: Areas, pen: Pen, last: Point)
    requires a.mouseMode && a.tablet.w != 0.0 && a.tablet.h != 0.0 && a.screen.w >= 1.0 && a.screen.h >= 1.0
    ensures CarriedBy(a, Target(a, pen, last), last, (pen.motionX, pen.motionY))
  {
    RelativeCarries(last.x, a.boundsX, pen.motionX, MouseMultiplier(a), a.screen.w);
    RelativeCarries(last.y, a.boundsY, pen.motionY, MouseMultiplier(a), a.screen.h);
    hide Relative, Trunc, Carried, MouseMultiplier;
  }

  /** The rate of mouse mode: at scaling one the pen crosses all screens twice while it
      crosses the tablet area, along the side on which the tablet area is the longer one in
      proportion, and at the same rate along the other. */
  lemma {:induction false} MouseRate(a: Areas)
    requires a.tablet.w > 0.0 && a.tablet.h > 0.0
    ensures if a.boundsW * a.tablet.h <= a.boundsH * a.tablet.w
            then MouseMultiplier(a) * a.tablet.w == a.scaling * 2.0 * a.boundsW
            else MouseMultiplier(a) * a.tablet.h == a.scaling * 2.0 * a.boundsH
  {
    var h, v := a.boundsW / a.tablet.w, a.boundsH / a.tablet.h;
    SmallerRatio(a.boundsW, a.tablet.w, a.boundsH, a.tablet.h);
    RateOfSide(a.scaling, h, a.tablet.w, a.boundsW);
    RateOfSide(a.scaling, v, a.tablet.h, a.boundsH);
  }

  lemma {:induction false} SmallerRatio(p: real, q: real, r: real, s: real)
    requires q > 0.0 && s > 0.0
    ensures p / q <= r / s <==> p * s <= r * q
  {
    var h, v := p / q, r / s;
    assert h * q == p && v * s == r;
    var qs := q * s;
    assert p * s == h * qs && r * q == v * qs && qs > 0.0;
    if h <= v {
      RealScale(h, v, qs);
    } else {
      assert (h - v) * qs > 0.0;
    }
  }

  lemma {:induction false} RateOfSide(scaling: real, ratio: real, side: real, bounds: real)
    requires ratio * side == bounds
    ensures scaling * (ratio * 2.0) * side == scaling * 2.0 * bounds
  {
  }

  /** More motion does not take the pointer less far. */
  predicate KeepsOrder(last: int, bounds: int, m: int, n: int, mult: real, sside: real) {
    m <= n && mult >= 0.0 ==>
      Trunc(Relative(last, bounds, m, mult, sside)) <= Trunc(Relative(last, bounds, n, mult, sside))
  }

  lemma {:induction false} WholeSideKeepsOrder(last: int, bounds: int, m: int, n: int, mult: real, sside: nat)
    requires sside >= 1
    ensures KeepsOrder(last, bounds, m, n, mult, sside as real)
  {
    if m <= n && mult >= 0.0 {
      RealScale(m as real, n as real, mult);
      HeldKeepsOrder((last - bounds) as real + m as real * mult, (last - bounds) as real + n as real * mult, sside);
      hide Held, Trunc;
    }
  }

  lemma {:induction false} HeldKeepsOrder(r: real, q: real, sside: nat)
    requires r <= q && sside >= 1
    ensures Trunc(Held(r, sside as real)) <= Trunc(Held(q, sside as real))
  {
    var x, y := Held(r, sside as real), Held(q, sside as real);
    hide Trunc;
    if x <= y {
      TruncMonotone(x, y);
    } else {
      assert y == (sside - 1) as real <= x < sside as real;
      hide Held;
      TruncOfPositive(x, sside - 1);
      TruncOfPositive(y, sside - 1);
    }
  }

  /** Past the end of a side of fractional size the pointer falls back by one. */
  lemma {:induction false} FractionalSideFallsBack(bounds: int, sside: real)
    requires sside >= 1.0 && sside != sside.Floor as real
    ensures !KeepsOrder(bounds + sside.Floor, bounds, 0, 1, 1.0, sside)
  {
    var last := bounds + sside.Floor;
    assert Relative(last, bounds, 0, 1.0, sside) == sside.Floor as real;
    assert Relative(last, bounds, 1, 1.0, sside) == sside - 1.0;
    TruncOfPositive(sside.Floor as real, sside.Floor);
    TruncOfPositive(sside - 1.0, sside.Floor - 1);
    hide Trunc, Relative;
  }

  /** At rates that are not negative more motion never takes the pointer less far, if and
      only if the mapped side is a whole number of points. */
  lemma {:induction false} MouseMonotone(bounds: int, sside: real)
    requires sside >= 1.0
    ensures (forall last: int, m: int, n: int, mult: real :: KeepsOrder(last, bounds, m, n, mult, sside))
            <==> sside == sside.Floor as real
  {
    if sside == sside.Floor as real {
      forall last: int, m: int, n: int, mult: real ensures KeepsOrder(last, bounds, m, n, mult, sside) {
        WholeSideKeepsOrder(last, bounds, m, n, mult, sside.Floor);
      }
    } else {
      FractionalSideFallsBack(bounds, sside);
    }
    hide KeepsOrder;
  }
}
