/** The area chooser of the preference pane: a rectangle kept inside bounds, with an
    optional aspect ratio, in exact numbers. */
module AreaChooser {
  datatype Span = Span(lo: real, hi: real) {
    function Size(): (s: real) {
      hi - lo
    }
  }

  datatype Box = Box(x: Span, y: Span)

  datatype Drag = None | TopLeft | TopRight | BottomLeft | BottomRight | Whole

  /** A span inside [0, max). */
  predicate Inside(s: Span, max: real) {
    0.0 <= s.lo <= s.hi < max
  }

  function Ordered(s: Span): (o: Span)
    ensures o.lo <= o.hi
  {
    if s.hi < s.lo then Span(s.hi, s.lo) else s
  }

  /** Where sanityCheckArea puts one side of a rectangle. A side starting past the end is
      first moved to the last position; the horizontal test for that is strict. */
  function Project(s: Span, max: real, strict: bool): (p: Span) {
    var o := Ordered(s);
    if o.lo < 0.0 then
      if o.Size() < max then Span(0.0, o.Size()) else Span(0.0, max - 1.0)
    else if (if strict then o.lo > max else o.lo >= max) && o.Size() < 1.0 then
      Span(max - 1.0, max - 1.0 + o.Size())
    else if o.hi >= max then
      Span(if o.Size() <= max - 1.0 then max - 1.0 - o.Size() else 0.0, max - 1.0)
    else
      o
  }

  function Check(b: Box, w: real, h: real): (c: Box) {
    Box(Project(b.x, w, true), Project(b.y, h, false))
  }

  /** The result is always an ordered side inside the bounds; a side that already was one
      stays as it is; and the size is kept exactly when it leaves room for the last
      position, or nothing had to be moved back from the end. */
  lemma {:induction false} ProjectIsSound(s: Span, max: real, strict: bool)
    requires max >= 1.0
    ensures Inside(Project(s, max, strict), max)
    ensures Inside(s, max) ==> Project(s, max, strict) == s
    ensures Project(Project(s, max, strict), max, strict) == Project(s, max, strict)
    ensures Project(s, max, strict).Size() <= Ordered(s).Size()
    ensures Ordered(s).Size() <= max - 1.0 ==> Project(s, max, strict).Size() == Ordered(s).Size()
  {
  }

  /** Where it lies: a side that reaches out in front starts at the front, one that reaches
      out at the end only goes back as far as the last position, and one that is larger
      than the bounds takes all of them. */
  lemma {:induction false} ProjectMovesBack(s: Span, max: real, strict: bool)
    requires max >= 1.0
    ensures var o, p := Ordered(s), Project(s, max, strict);
      && (o == s || o == Span(s.hi, s.lo)) && o.Size() >= 0.0
      && (o.lo < 0.0 ==> p.lo == 0.0)
      && (o.lo >= 0.0 && o.hi >= max ==> p.hi >= max - 1.0)
      && (o.lo >= 0.0 && o.hi >= max && o.lo < max ==> p.hi == max - 1.0)
      && (o.Size() >= max ==> p == Span(0.0, max - 1.0))
  {
  }

  /** The sizes that survive the projection of a side that begins inside the bounds or before. */
  predicate Kept(s: Span, max: real) {
    s.Size() <= max - 1.0 || (s.Size() < max && s.hi < max)
  }

  lemma {:induction false} SizeKept(s: Span, max: real, strict: bool)
    requires max >= 1.0 && s.lo <= s.hi && s.lo < max
    ensures Project(s, max, strict).Size() == s.Size() <==> Kept(s, max)
  {
  }

  /** sanityCheckArea, step by step. */
  method SanityCheckArea(area: Box, maxWidth: real, maxHeight: real) returns (r: Box)
    requires maxWidth >= 1.0 && maxHeight >= 1.0
    ensures r == Check(area, maxWidth, maxHeight)
  {
    var x := CheckSide(area.x, maxWidth, true);
    var y := CheckSide(area.y, maxHeight, false);
    r := Box(x, y);
  }

  method CheckSide(area: Span, max: real, strict: bool) returns (r: Span)
    requires max >= 1.0
    ensures r == Project(area, max, strict)
  {
    var l, r0 := area.lo, area.hi;
    if r0 < l {
      var q := l;
      l := r0;
      r0 := q;
    }
    if l < 0.0 {
      r0 := r0 - l;
      l := 0.0;
    }
    if (strict && l > max) || (!strict && l >= max) {
      r0 := r0 - (l - max + 1.0);
      l := max - 1.0;
    }
    if r0 < 0.0 {
      l := l - r0;
      r0 := 0.0;
    }
    if r0 >= max {
      l := l - (r0 - max + 1.0);
      r0 := max - 1.0;
    }
    if l < 0.0 {
      l := 0.0;
    }
    if l >= max {
      l := max - 1.0;
    }
    if r0 < 0.0 {
      r0 := 0.0;
    }
    if r0 >= max {
      r0 := max - 1.0;
    }
    r := Span(l, r0);
  }

  // ---- the aspect constraint ----

  /** Width and height factors, the larger of them one. */
  datatype Ratio = Ratio(w: real, h: real) {
    predicate Valid() {
      0.0 < w <= 1.0 && 0.0 < h <= 1.0 && (w == 1.0 || h == 1.0)
    }
  }

  function RatioOf(width: real, height: real): (r: Ratio)
    requires width > 0.0 && height > 0.0
  {
    if width < height then Ratio(width / height, 1.0) else Ratio(1.0, height / width)
  }

  /** A side given a new size, growing away from the corner that is not dragged. */
  function Resized(s: Span, size: real, lowMoves: bool, highMoves: bool): (r: Span) {
    if lowMoves then Span(s.hi - size, s.hi)
    else if highMoves then Span(s.lo, s.lo + size)
    else Span((s.lo + s.hi - size) / 2.0, (s.lo + s.hi + size) / 2.0)
  }

  predicate MovesLeft(d: Drag) {
    d == TopLeft || d == BottomLeft
  }

  predicate MovesRight(d: Drag) {
    d == TopRight || d == BottomRight
  }

  predicate MovesTop(d: Drag) {
    d == TopLeft || d == TopRight
  }

  predicate MovesBottom(d: Drag) {
    d == BottomLeft || d == BottomRight
  }

  function Constrained(b: Box, ratio: Ratio, d: Drag): (c: Box) {
    var w := if ratio.h == 1.0 then b.y.Size() * ratio.w else b.x.Size();
    var h := if ratio.h == 1.0 then b.y.Size() else b.x.Size() * ratio.h;
    Box(Resized(b.x, w, MovesLeft(d), MovesRight(d)), Resized(b.y, h, MovesTop(d), MovesBottom(d)))
  }

  /** What setAreaLeft stores. */
  function Stored(b: Box, w: real, h: real, constrained: bool, ratio: Ratio, d: Drag): (c: Box) {
    var first := Check(b, w, h);
    Check(if constrained then Constrained(first, ratio, d) else first, w, h)
  }

  predicate BoxInside(b: Box, w: real, h: real) {
    Inside(b.x, w) && Inside(b.y, h)
  }

  lemma {:induction false} CheckIsSound(b: Box, w: real, h: real)
    requires w >= 1.0 && h >= 1.0
    ensures BoxInside(Check(b, w, h), w, h)
    ensures BoxInside(b, w, h) ==> Check(b, w, h) == b
  {
    ProjectIsSound(b.x, w, true);
    ProjectIsSound(b.y, h, false);
  }

  lemma {:induction false} StoredInside(b: Box, w: real, h: real, constrained: bool, ratio: Ratio, d: Drag)
    requires w >= 1.0 && h >= 1.0
    ensures BoxInside(Stored(b, w, h, constrained, ratio, d), w, h)
    ensures !constrained ==> Stored(b, w, h, constrained, ratio, d) == Check(b, w, h)
  {
    CheckIsSound(b, w, h);
    CheckIsSound(if constrained then Constrained(Check(b, w, h), ratio, d) else Check(b, w, h), w, h);
  }

  /** A box has the ratio. */
  predicate HasRatio(b: Box, ratio: Ratio) {
    if ratio.h == 1.0 then b.x.Size() == b.y.Size() * ratio.w else b.y.Size() == b.x.Size() * ratio.h
  }

  /** The side that the constraint resizes. */
  function Dependent(b: Box, ratio: Ratio): (s: Span) {
    if ratio.h == 1.0 then b.x else b.y
  }

  lemma {:induction false} ResizedSize(s: Span, size: real, low: bool, high: bool)
    ensures Resized(s, size, low, high).Size() == size
    ensures size == s.Size() ==> Resized(s, size, low, high) == s
  {
  }

  /** The size the constraint gives to the side it resizes. */
  function Demanded(b: Box, ratio: Ratio): (size: real) {
    if ratio.h == 1.0 then b.y.Size() * ratio.w else b.x.Size() * ratio.h
  }

  lemma {:induction false} ConstrainedParts(b: Box, ratio: Ratio, d: Drag)
    ensures var c := Constrained(b, ratio, d);
      if ratio.h == 1.0 then
        c == Box(Resized(b.x, Demanded(b, ratio), MovesLeft(d), MovesRight(d)), b.y)
      else
        c == Box(b.x, Resized(b.y, Demanded(b, ratio), MovesTop(d), MovesBottom(d)))
  {
    ResizedSize(b.x, b.x.Size(), MovesLeft(d), MovesRight(d));
    ResizedSize(b.y, b.y.Size(), MovesTop(d), MovesBottom(d));
  }

  lemma {:induction false} DemandedIsPositive(b: Box, ratio: Ratio)
    requires b.x.Size() >= 0.0 && b.y.Size() >= 0.0 && ratio.Valid()
    ensures 0.0 <= Demanded(b, ratio)
  {
  }

  lemma {:induction false} SideKeepsSize(s: Span, size: real, low: bool, high: bool, max: real, strict: bool)
    requires max >= 1.0 && size >= 0.0 && Inside(s, max)
    ensures var r := Resized(s, size, low, high); Project(r, max, strict).Size() == size <==> Kept(r, max)
  {
    var r := Resized(s, size, low, high);
    ResizedSize(s, size, low, high);
    SizeKept(r, max, strict);
  }

  lemma {:induction false} ProjectKeeps(s: Span, max: real, strict: bool)
    requires Inside(s, max)
    ensures Project(s, max, strict) == s
  {
  }

  lemma {:induction false} RatioFromWidth(first: Box, w: real, h: real, ratio: Ratio, d: Drag)
    requires w >= 1.0 && BoxInside(first, w, h) && ratio.Valid() && ratio.h == 1.0
    ensures var c := Constrained(first, ratio, d);
      HasRatio(Check(c, w, h), ratio) <==> Kept(c.x, w)
  {
    hide Project, Constrained, Resized, Kept, Ratio.Valid;
    var size := Demanded(first, ratio);
    ConstrainedParts(first, ratio, d);
    DemandedIsPositive(first, ratio);
    ProjectKeeps(first.y, h, false);
    SideKeepsSize(first.x, size, MovesLeft(d), MovesRight(d), w, true);
  }

  lemma {:induction false} RatioFromHeight(first: Box, w: real, h: real, ratio: Ratio, d: Drag)
    requires h >= 1.0 && BoxInside(first, w, h) && ratio.Valid() && ratio.h != 1.0
    ensures var c := Constrained(first, ratio, d);
      HasRatio(Check(c, w, h), ratio) <==> Kept(c.y, h)
  {
    hide Project, Constrained, Resized, Kept, Ratio.Valid;
    var size := Demanded(first, ratio);
    ConstrainedParts(first, ratio, d);
    DemandedIsPositive(first, ratio);
    ProjectKeeps(first.x, w, true);
    SideKeepsSize(first.y, size, MovesTop(d), MovesBottom(d), h, false);
  }

  /** The stored area has exactly the requested ratio, if and only if the resized side keeps
      its size when it is put back inside the bounds. */
  lemma {:induction false} StoredRatio(b: Box, w: real, h: real, ratio: Ratio, d: Drag)
    requires w >= 1.0 && h >= 1.0 && ratio.Valid()
    ensures var placed := Dependent(Constrained(Check(b, w, h), ratio, d), ratio);
      HasRatio(Stored(b, w, h, true, ratio, d), ratio)
      <==> Kept(placed, if ratio.h == 1.0 then w else h)
  {
    CheckIsSound(b, w, h);
    if ratio.h == 1.0 {
      RatioFromWidth(Check(b, w, h), w, h, ratio, d);
    } else {
      RatioFromHeight(Check(b, w, h), w, h, ratio, d);
    }
  }

  /** The ratio of factors is the ratio that was asked for. */
  lemma {:induction false} RatioIsRequested(b: Box, width: real, height: real)
    requires width > 0.0 && height > 0.0
    ensures RatioOf(width, height).Valid()
    ensures HasRatio(b, RatioOf(width, height)) <==> b.x.Size() * height == b.y.Size() * width
  {
    var r := RatioOf(width, height);
    if width < height {
      assert r.w * height == width;
      assert b.y.Size() * r.w * height == b.y.Size() * width;
      Cancel(b.x.Size(), b.y.Size() * r.w, height);
      assert r.w < 1.0;
    } else {
      assert r.h * width == height;
      assert b.x.Size() * r.h * width == b.x.Size() * height;
      Cancel(b.y.Size(), b.x.Size() * r.h, width);
      if r.h == 1.0 {
        assert height == width;
        Cancel(b.x.Size(), b.y.Size(), width);
      }
    }
  }

  lemma {:induction false} Cancel(a: real, b: real, c: real)
    requires c > 0.0
    ensures a * c == b * c <==> a == b
  {
    if a * c == b * c {
      assert (a - b) * c == 0.0;
    }
  }

  /** With a constraint the stored box keeps the corner opposite to the one dragged, and its
      centre when none is, whenever the resized side fits beside what is kept. */
  lemma {:induction false} ConstrainedKeepsCorner(b: Box, w: real, h: real, ratio: Ratio, d: Drag)
    requires w >= 1.0 && h >= 1.0 && BoxInside(b, w, h) && BoxInside(Constrained(b, ratio, d), w, h)
    ensures var r := Stored(b, w, h, true, ratio, d);
      && (d == TopLeft ==> r.x.hi == b.x.hi && r.y.hi == b.y.hi)
      && (d == TopRight ==> r.x.lo == b.x.lo && r.y.hi == b.y.hi)
      && (d == BottomLeft ==> r.x.hi == b.x.hi && r.y.lo == b.y.lo)
      && (d == BottomRight ==> r.x.lo == b.x.lo && r.y.lo == b.y.lo)
      && (d == None || d == Whole ==> r.x.lo + r.x.hi == b.x.lo + b.x.hi && r.y.lo + r.y.hi == b.y.lo + b.y.hi)
      && (if ratio.h == 1.0 then r.y == b.y else r.x == b.x)
  {
    CheckIsSound(b, w, h);
    CheckIsSound(Constrained(b, ratio, d), w, h);
    ConstrainedParts(b, ratio, d);
    hide Constrained, Check, Demanded;
  }

  // ---- dragging ----

  /** One side of a box dragged as a whole: moved, then pushed back at the ends. */
  function Slid(s: Span, d: real, max: real): (r: Span) {
    var l, h := s.lo + d, s.hi + d;
    if l < 0.0 then Span(0.0, h - l)
    else if h > max - 1.0 then Span(l + (max - 1.0 - h), max - 1.0)
    else Span(l, h)
  }

  /** One side dragged by its low edge, or by its high edge, down to a minimal size. */
  function LowDragged(s: Span, d: real, min: real): (r: Span) {
    var l := s.lo + d;
    Span(if l < 0.0 then 0.0 else if l > s.hi - min then s.hi - min else l, s.hi)
  }

  function HighDragged(s: Span, d: real, max: real, min: real): (r: Span) {
    var h := s.hi + d;
    Span(s.lo, if h > max - 1.0 then max - 1.0 else if h < s.lo + min then s.lo + min else h)
  }

  /** The box that mouseDragged hands to setAreaLeft. */
  function Dragged(b: Box, dx: real, dy: real, w: real, h: real, d: Drag, minW: real, minH: real): (r: Box) {
    if d == Whole then
      Box(Slid(b.x, dx, w), Slid(b.y, dy, h))
    else
      Box(if MovesLeft(d) then LowDragged(b.x, dx, minW) else HighDragged(b.x, dx, w, minW),
          if MovesTop(d) then LowDragged(b.y, dy, minH) else HighDragged(b.y, dy, h, minH))
  }

  /** The distance may be added to the edges first. */
  lemma {:induction false} MovedFirst(s: Span, d: real, max: real, min: real)
    ensures Slid(Span(s.lo + d, s.hi + d), 0.0, max) == Slid(s, d, max)
    ensures LowDragged(Span(s.lo + d, s.hi), 0.0, min) == LowDragged(s, d, min)
    ensures HighDragged(Span(s.lo, s.hi + d), 0.0, max, min) == HighDragged(s, d, max, min)
  {
  }

  lemma {:induction false} SlideKeepsSize(s: Span, d: real, max: real, strict: bool)
    requires max >= 1.0 && Inside(s, max)
    ensures var r := Project(Slid(s, d, max), max, strict); Inside(r, max) && r.Size() == s.Size()
  {
  }

  lemma {:induction false} SameSizeSameBox(b: Box, ratio: Ratio, d: Drag)
    requires HasRatio(b, ratio)
    ensures Constrained(b, ratio, d) == b
  {
    ConstrainedParts(b, ratio, d);
    ResizedSize(b.x, b.x.Size(), MovesLeft(d), MovesRight(d));
    ResizedSize(b.y, b.y.Size(), MovesTop(d), MovesBottom(d));
  }

  lemma {:induction false} SameRatio(b: Box, c: Box, ratio: Ratio)
    requires b.x.Size() == c.x.Size() && b.y.Size() == c.y.Size()
    ensures HasRatio(b, ratio) <==> HasRatio(c, ratio)
  {
  }

  /** Where a side dragged as a whole ends up: further by the distance, or at the end that
      it was pushed against. */
  predicate Pushed(s: Span, r: Span, d: real, max: real) {
    && r.Size() == s.Size()
    && (if s.lo + d < 0.0 then r.lo == 0.0
        else if s.hi + d > max - 1.0 then r.hi == max - 1.0 || (r.lo == 0.0 && s.Size() > max - 1.0)
        else r.lo == s.lo + d)
  }

  lemma {:induction false} SlideGoes(s: Span, d: real, max: real, strict: bool)
    requires max >= 1.0 && Inside(s, max)
    ensures Pushed(s, Project(Slid(s, d, max), max, strict), d, max)
  {
  }

  /** The whole box goes where it is dragged, with or without the constraint. */
  lemma {:induction false} WholeDragGoes(b: Box, dx: real, dy: real, w: real, h: real, constrained: bool,
                                         ratio: Ratio)
    requires w >= 1.0 && h >= 1.0 && BoxInside(b, w, h) && (constrained ==> HasRatio(b, ratio))
    ensures var r := Stored(Dragged(b, dx, dy, w, h, Whole, 0.0, 0.0), w, h, constrained, ratio, Whole);
      Pushed(b.x, r.x, dx, w) && Pushed(b.y, r.y, dy, h)
  {
    hide Project, Slid, Constrained, HasRatio, Pushed;
    var first := Check(Dragged(b, dx, dy, w, h, Whole, 0.0, 0.0), w, h);
    SlideKeepsSize(b.x, dx, w, true);
    SlideKeepsSize(b.y, dy, h, false);
    SlideGoes(b.x, dx, w, true);
    SlideGoes(b.y, dy, h, false);
    SameRatio(b, first, ratio);
    if constrained {
      SameSizeSameBox(first, ratio, Whole);
    }
    CheckIsSound(first, w, h);
  }

  /** Dragging the whole box keeps its size, with or without the constraint. */
  lemma {:induction false} WholeDragKeepsSize(b: Box, dx: real, dy: real, w: real, h: real, constrained: bool,
                                              ratio: Ratio)
    requires w >= 1.0 && h >= 1.0 && BoxInside(b, w, h) && (constrained ==> HasRatio(b, ratio))
    ensures var r := Stored(Dragged(b, dx, dy, w, h, Whole, 0.0, 0.0), w, h, constrained, ratio, Whole);
      BoxInside(r, w, h) && r.x.Size() == b.x.Size() && r.y.Size() == b.y.Size()
      && (constrained ==> HasRatio(r, ratio))
  {
    hide Project, Slid, Constrained, HasRatio;
    var first := Check(Dragged(b, dx, dy, w, h, Whole, 0.0, 0.0), w, h);
    SlideKeepsSize(b.x, dx, w, true);
    SlideKeepsSize(b.y, dy, h, false);
    SameRatio(b, first, ratio);
    if constrained {
      SameSizeSameBox(first, ratio, Whole);
    }
    CheckIsSound(first, w, h);
  }

  /** The boxes stored during a whole-box drag. */
  function DragRun(b: Box, moves: seq<(real, real)>, w: real, h: real, constrained: bool, ratio: Ratio): (r: Box) {
    if moves == [] then b
    else
      var before := DragRun(b, moves[..|moves| - 1], w, h, constrained, ratio);
      var m := moves[|moves| - 1];
      Stored(Dragged(before, m.0, m.1, w, h, Whole, 0.0, 0.0), w, h, constrained, ratio, Whole)
  }

  /** Over any run of moves the size never changes and the box never leaves the bounds. */
  lemma {:induction false} DragRunKeepsSize(b: Box, moves: seq<(real, real)>, w: real, h: real,
                                            constrained: bool, ratio: Ratio)
    requires w >= 1.0 && h >= 1.0 && BoxInside(b, w, h) && (constrained ==> HasRatio(b, ratio))
    ensures var r := DragRun(b, moves, w, h, constrained, ratio);
      BoxInside(r, w, h) && r.x.Size() == b.x.Size() && r.y.Size() == b.y.Size()
      && (constrained ==> HasRatio(r, ratio))
    decreases |moves|
  {
    if moves != [] {
      var m := moves[|moves| - 1];
      var before := DragRun(b, moves[..|moves| - 1], w, h, constrained, ratio);
      DragRunKeepsSize(b, moves[..|moves| - 1], w, h, constrained, ratio);
      WholeDragKeepsSize(before, m.0, m.1, w, h, constrained, ratio);
    }
  }

  /** The sum of some moves, across and down. */
  function Way(moves: seq<(real, real)>): (way: (real, real)) {
    if moves == [] then (0.0, 0.0)
    else
      var before, m := Way(moves[..|moves| - 1]), moves[|moves| - 1];
      (before.0 + m.0, before.1 + m.1)
  }

  /** A box moved by a way, if that leaves it before the last position. */
  function Shifted(b: Box, way: (real, real)): (r: Box) {
    Box(Span(b.x.lo + way.0, b.x.hi + way.0), Span(b.y.lo + way.1, b.y.hi + way.1))
  }

  predicate Free(b: Box, w: real, h: real) {
    0.0 <= b.x.lo && b.x.hi <= w - 1.0 && 0.0 <= b.y.lo && b.y.hi <= h - 1.0
  }

  /** Over any run of moves that never reaches an end, the box is displaced by their sum. */
  lemma {:induction false} DragRunGoes(b: Box, moves: seq<(real, real)>, w: real, h: real, constrained: bool,
                                       ratio: Ratio)
    requires w >= 1.0 && h >= 1.0 && BoxInside(b, w, h) && (constrained ==> HasRatio(b, ratio))
    requires forall k :: 0 <= k <= |moves| ==> Free(Shifted(b, Way(moves[..k])), w, h)
    ensures DragRun(b, moves, w, h, constrained, ratio) == Shifted(b, Way(moves))
    decreases |moves|
  {
    hide Free, Stored, Dragged, HasRatio, BoxInside, Pushed, Shifted, DragRun, Way;
    if moves == [] {
      NoMoves(b, w, h, constrained, ratio);
    } else {
      var init, m := moves[..|moves| - 1], moves[|moves| - 1];
      var before := DragRun(b, init, w, h, constrained, ratio);
      assert moves[..|moves|] == moves;
      forall k | 0 <= k <= |init| ensures Free(Shifted(b, Way(init[..k])), w, h) {
        assert init[..k] == moves[..k];
      }
      DragRunGoes(b, init, w, h, constrained, ratio);
      DragRunKeepsSize(b, init, w, h, constrained, ratio);
      WholeDragGoes(before, m.0, m.1, w, h, constrained, ratio);
      OneMoreMove(b, moves, w, h, constrained, ratio);
      FreeStep(b, before, DragRun(b, moves, w, h, constrained, ratio), Way(init), m, w, h);
    }
  }

  lemma {:induction false} NoMoves(b: Box, w: real, h: real, constrained: bool, ratio: Ratio)
    ensures DragRun(b, [], w, h, constrained, ratio) == Shifted(b, Way([]))
  {
  }

  lemma {:induction false} OneMoreMove(b: Box, moves: seq<(real, real)>, w: real, h: real, constrained: bool,
                                       ratio: Ratio)
    requires moves != []
    ensures var init, m := moves[..|moves| - 1], moves[|moves| - 1];
      && Way(moves) == (Way(init).0 + m.0, Way(init).1 + m.1)
      && DragRun(b, moves, w, h, constrained, ratio)
         == Stored(Dragged(DragRun(b, init, w, h, constrained, ratio), m.0, m.1, w, h, Whole, 0.0, 0.0), w, h,
                   constrained, ratio, Whole)
  {
    hide Stored, Dragged;
  }

  lemma {:induction false} FreeStep(b: Box, before: Box, after: Box, way: (real, real), m: (real, real), w: real,
                                    h: real)
    requires before == Shifted(b, way) && Free(Shifted(b, (way.0 + m.0, way.1 + m.1)), w, h)
    requires Pushed(before.x, after.x, m.0, w) && Pushed(before.y, after.y, m.1, h)
    ensures after == Shifted(b, (way.0 + m.0, way.1 + m.1))
  {
  }

  /** Where a dragged edge ends up: further by the distance, between two limits. */
  predicate Follows(from: real, to: real, d: real, low: real, high: real) {
    if from + d < low then to == low else if from + d > high then to == high else to == from + d
  }

  /** A dragged edge follows the mouse between the end of the bounds and the smallest size,
      as long as that size fits. */
  lemma {:induction false} EdgeFollows(s: Span, d: real, max: real, min: real, strict: bool)
    requires max >= 1.0 && 0.0 <= min && Inside(s, max)
    ensures min <= s.hi ==> Follows(s.lo, Project(LowDragged(s, d, min), max, strict).lo, d, 0.0, s.hi - min)
    ensures s.lo + min <= max - 1.0 ==>
              Follows(s.hi, Project(HighDragged(s, d, max, min), max, strict).hi, d, s.lo + min, max - 1.0)
  {
  }

  /** The dragged corner follows the mouse on each side on which the smallest size fits. */
  predicate CornerFollows(b: Box, r: Box, dx: real, dy: real, w: real, h: real, d: Drag, minW: real, minH: real) {
    && (d == TopLeft || d == BottomLeft ==>
          minW <= b.x.hi ==> Follows(b.x.lo, r.x.lo, dx, 0.0, b.x.hi - minW))
    && (d == TopRight || d == BottomRight ==>
          b.x.lo + minW <= w - 1.0 ==> Follows(b.x.hi, r.x.hi, dx, b.x.lo + minW, w - 1.0))
    && (d == TopLeft || d == TopRight ==>
          minH <= b.y.hi ==> Follows(b.y.lo, r.y.lo, dy, 0.0, b.y.hi - minH))
    && (d == BottomLeft || d == BottomRight ==>
          b.y.lo + minH <= h - 1.0 ==> Follows(b.y.hi, r.y.hi, dy, b.y.lo + minH, h - 1.0))
  }

  lemma {:induction false} CornerDragGoes(b: Box, dx: real, dy: real, w: real, h: real, ratio: Ratio, d: Drag,
                                          minW: real, minH: real)
    requires w >= 1.0 && h >= 1.0 && BoxInside(b, w, h) && minW >= 0.0 && minH >= 0.0 && d != None && d != Whole
    ensures CornerFollows(b, Stored(Dragged(b, dx, dy, w, h, d, minW, minH), w, h, false, ratio, d),
                          dx, dy, w, h, d, minW, minH)
  {
    hide Project, LowDragged, HighDragged, Follows, Inside;
    StoredInside(Dragged(b, dx, dy, w, h, d, minW, minH), w, h, false, ratio, d);
    EdgeFollows(b.x, dx, w, minW, true);
    EdgeFollows(b.y, dy, h, minH, false);
    hide Stored;
  }

  /** Dragging one edge leaves the opposite edge where it was, except when the minimal size
      does not fit between that edge and the end of the bounds. */
  lemma {:induction false} CornerKeepsOpposite(s: Span, d: real, max: real, min: real, strict: bool)
    requires max >= 1.0 && 0.0 <= min < max && Inside(s, max)
    ensures Project(LowDragged(s, d, min), max, strict).hi == s.hi
            <==> s.lo + d < 0.0 || s.lo + d <= s.hi - min || min <= s.hi
    ensures Project(HighDragged(s, d, max, min), max, strict).lo == s.lo
            <==> if s.hi + d > max - 1.0 then s.lo <= max - 1.0 else s.hi + d >= s.lo + min || s.lo + min < max
  {
  }

  // ---- the button that takes everything ----

  /** The box that resetToAll hands to setAreaLeft. */
  function Largest(b: Box, w: real, h: real, constrained: bool, ratio: Ratio): (r: Box) {
    if !constrained then Box(Span(0.0, w - 1.0), Span(0.0, h - 1.0))
    else if ratio.w == 1.0 then Box(Span(0.0, w - 1.0), Around(b.y, w * ratio.h))
    else Box(Around(b.x, h * ratio.w), Span(0.0, h - 1.0))
  }

  function Around(s: Span, size: real): (r: Span) {
    Span((s.lo + s.hi - size) / 2.0, (s.lo + s.hi + size) / 2.0)
  }

  /** Without a constraint everything is taken. */
  lemma {:induction false} ResetTakesAll(b: Box, w: real, h: real, ratio: Ratio, d: Drag)
    requires w >= 1.0 && h >= 1.0
    ensures Stored(Largest(b, w, h, false, ratio), w, h, false, ratio, d)
            == Box(Span(0.0, w - 1.0), Span(0.0, h - 1.0))
  {
    CheckIsSound(Largest(b, w, h, false, ratio), w, h);
  }

  /** A wide box takes the whole width and has the ratio, whenever such a box fits. */
  lemma {:induction false} WideResetFits(b: Box, w: real, h: real, ratio: Ratio)
    requires w >= 1.0 && h >= 1.0 && ratio.Valid() && ratio.h < 1.0 && (w - 1.0) * ratio.h <= h - 1.0
    ensures var r := Stored(Largest(b, w, h, true, ratio), w, h, true, ratio, None);
      r.x == Span(0.0, w - 1.0) && HasRatio(r, ratio)
  {
    hide Project, HasRatio;
    var wanted := Largest(b, w, h, true, ratio);
    var first := Check(wanted, w, h);
    ProjectKeeps(wanted.x, w, true);
    ConstrainedParts(first, ratio, None);
    ResizedSize(first.y, Demanded(first, ratio), false, false);
    StoredRatio(wanted, w, h, ratio, None);
    ProjectKeeps(first.x, w, true);
  }

  /** A high box takes the whole height and has the ratio, whenever such a box fits. */
  lemma {:induction false} HighResetFits(b: Box, w: real, h: real, ratio: Ratio)
    requires w >= 1.0 && h >= 1.0 && ratio.Valid() && ratio.w < 1.0 && (h - 1.0) * ratio.w <= w - 1.0
    ensures var r := Stored(Largest(b, w, h, true, ratio), w, h, true, ratio, None);
      r.y == Span(0.0, h - 1.0) && HasRatio(r, ratio)
  {
    hide Project, HasRatio;
    var wanted := Largest(b, w, h, true, ratio);
    var first := Check(wanted, w, h);
    ProjectKeeps(wanted.y, h, false);
    ConstrainedParts(first, ratio, None);
    ResizedSize(first.x, Demanded(first, ratio), false, false);
    StoredRatio(wanted, w, h, ratio, None);
    ProjectKeeps(first.y, h, false);
  }

  /** Around a centre there is room for a smaller side wherever there is for a larger one. */
  lemma {:induction false} SmallerFits(s: Span, size: real, smaller: real, max: real, strict: bool)
    requires 0.0 <= smaller <= size && Inside(Around(s, size), max)
    ensures var first := Project(Around(s, size), max, strict);
      var r := Project(Resized(first, smaller, false, false), max, strict);
      r.lo + r.hi == s.lo + s.hi
  {
    ProjectKeeps(Around(s, size), max, strict);
    var r := Resized(Around(s, size), smaller, false, false);
    assert r == Around(s, smaller) && Inside(r, max);
    ProjectKeeps(r, max, strict);
    hide Project;
  }

  lemma {:induction false} LargestSides(b: Box, w: real, h: real, ratio: Ratio, q: real)
    requires ratio.Valid() && q == if ratio.w == 1.0 then w * ratio.h else h * ratio.w
    ensures Largest(b, w, h, true, ratio)
            == if ratio.w == 1.0 then Box(Span(0.0, w - 1.0), Around(b.y, q))
               else Box(Around(b.x, q), Span(0.0, h - 1.0))
  {
  }

  /** The box stored for a wide or a high one, side by side: `q` is its size before the
      constraint is applied, and `k` the size that the constraint demands. */
  lemma {:induction false} ResetSide(b: Box, w: real, h: real, ratio: Ratio, q: real, k: real)
    requires w >= 1.0 && h >= 1.0 && ratio.Valid() && (ratio.w < 1.0 || ratio.h < 1.0)
    requires q == if ratio.w == 1.0 then w * ratio.h else h * ratio.w
    requires k == if ratio.w == 1.0 then (w - 1.0) * ratio.h else (h - 1.0) * ratio.w
    ensures var r := Stored(Largest(b, w, h, true, ratio), w, h, true, ratio, None);
      if ratio.w == 1.0 then r.y == Project(Resized(Project(Around(b.y, q), h, false), k, false, false), h, false)
      else r.x == Project(Resized(Project(Around(b.x, q), w, true), k, false, false), w, true)
  {
    hide Project, Resized, Constrained, Around, Largest, Demanded;
    LargestSides(b, w, h, ratio, q);
    var first := Check(Largest(b, w, h, true, ratio), w, h);
    ConstrainedParts(first, ratio, None);
    if ratio.w == 1.0 {
      WholeSideStays(w, true);
      DemandedOf(first, ratio, w - 1.0, k);
    } else {
      WholeSideStays(h, false);
      DemandedOf(first, ratio, h - 1.0, k);
    }
  }

  lemma {:induction false} DemandedOf(b: Box, ratio: Ratio, side: real, k: real)
    requires side == if ratio.h == 1.0 then b.y.Size() else b.x.Size()
    requires k == if ratio.h == 1.0 then side * ratio.w else side * ratio.h
    ensures Demanded(b, ratio) == k
  {
  }

  lemma {:induction false} WholeSideStays(max: real, strict: bool)
    requires max >= 1.0
    ensures Project(Span(0.0, max - 1.0), max, strict) == Span(0.0, max - 1.0)
  {
  }

  /** Either way the box keeps its centre, if it has room around that. */
  lemma {:induction false} ResetKeepsCentre(b: Box, w: real, h: real, ratio: Ratio)
    requires w >= 1.0 && h >= 1.0 && ratio.Valid()
    ensures var r := Stored(Largest(b, w, h, true, ratio), w, h, true, ratio, None);
      && (ratio.h < 1.0 && Inside(Around(b.y, w * ratio.h), h) ==> r.y.lo + r.y.hi == b.y.lo + b.y.hi)
      && (ratio.w < 1.0 && Inside(Around(b.x, h * ratio.w), w) ==> r.x.lo + r.x.hi == b.x.lo + b.x.hi)
  {
    hide Stored, Largest, Around, Inside, Project, Resized;
    if ratio.h < 1.0 && Inside(Around(b.y, w * ratio.h), h) {
      var q, k := w * ratio.h, (w - 1.0) * ratio.h;
      Shorter(w, ratio.h);
      ResetSide(b, w, h, ratio, q, k);
      SmallerFits(b.y, q, k, h, false);
    }
    if ratio.w < 1.0 && Inside(Around(b.x, h * ratio.w), w) {
      var q, k := h * ratio.w, (h - 1.0) * ratio.w;
      Shorter(h, ratio.w);
      ResetSide(b, w, h, ratio, q, k);
      SmallerFits(b.x, q, k, w, true);
    }
  }

  lemma {:induction false} Shorter(side: real, k: real)
    requires side >= 1.0 && k > 0.0
    ensures 0.0 <= (side - 1.0) * k <= side * k
  {
  }

  /** For a square, taking everything gives a square exactly when the bounds are at least as
      wide as high: else the width is one short of the height. The two cases of the
      condition cover all bounds that are whole numbers. */
  lemma {:induction false} SquareReset(b: Box, w: real, h: real)
    requires w >= 1.0 && h >= 1.0 && (w <= h - 1.0 || w >= h)
    ensures var square := Ratio(1.0, 1.0);
      HasRatio(Stored(Largest(b, w, h, true, square), w, h, true, square, None), square) <==> w >= h
  {
    hide HasRatio, Project, Constrained;
    var square := Ratio(1.0, 1.0);
    var wanted := Largest(b, w, h, true, square);
    var first := Check(wanted, w, h);
    AroundProjected(b.y, w, h);
    ProjectKeeps(wanted.x, w, true);
    ConstrainedParts(first, square, None);
    ResizedSize(first.x, Demanded(first, square), false, false);
    StoredRatio(wanted, w, h, square, None);
  }

  lemma {:induction false} AroundProjected(s: Span, size: real, max: real)
    requires max >= 1.0 && size >= 1.0 && (size <= max - 1.0 || size >= max)
    ensures Project(Around(s, size), max, false).Size() == if size >= max then max - 1.0 else size
  {
  }

  // ---- the control ----

  class Chooser {
    var maxWidth: real
    var maxHeight: real
    var box: Box
    var isConstrained: bool
    var ratio: Ratio
    var dragType: Drag
    var startX: real
    var startY: real
    var scaleW: real
    var scaleH: real

    ghost predicate Valid()
      reads this
    {
      maxWidth >= 1.0 && maxHeight >= 1.0 && BoxInside(box, maxWidth, maxHeight)
    }

    constructor (w: real, h: real, scaleW: real, scaleH: real)
      requires w >= 1.0 && h >= 1.0
      ensures Valid() && box == Box(Span(0.0, w - 1.0), Span(0.0, h - 1.0)) && !isConstrained
      ensures maxWidth == w && maxHeight == h
    {
      maxWidth, maxHeight, box := w, h, Box(Span(0.0, w - 1.0), Span(0.0, h - 1.0));
      isConstrained, ratio, dragType := false, Ratio(1.0, 1.0), None;
      startX, startY := 0.0, 0.0;
      this.scaleW, this.scaleH := scaleW, scaleH;
    }

    method SetArea(l: real, t: real, r: real, b: real)
      requires Valid()
      modifies this`box
      ensures Valid()
      ensures box == Stored(Box(Span(l, r), Span(t, b)), maxWidth, maxHeight, isConstrained, ratio, dragType)
    {
      hide Inside, Project, Constrained;
      var c := SanityCheckArea(Box(Span(l, r), Span(t, b)), maxWidth, maxHeight);
      if isConstrained {
        c := ApplyRatio(c);
      }
      StoredInside(Box(Span(l, r), Span(t, b)), maxWidth, maxHeight, isConstrained, ratio, dragType);
      box := SanityCheckArea(c, maxWidth, maxHeight);
    }

    method ApplyRatio(c: Box) returns (placed: Box)
      ensures placed == Constrained(c, ratio, dragType)
    {
      var w, h := c.x.Size(), c.y.Size();
      if ratio.h == 1.0 {
        w := h * ratio.w;
      } else {
        h := w * ratio.h;
      }
      placed := Place(c, w, h);
    }

    /** The corner that is dragged moves, or both sides alike when there is none. */
    method Place(c: Box, w: real, h: real) returns (placed: Box)
      ensures placed == Box(Resized(c.x, w, MovesLeft(dragType), MovesRight(dragType)),
                            Resized(c.y, h, MovesTop(dragType), MovesBottom(dragType)))
    {
      var l, t, r, b := c.x.lo, c.y.lo, c.x.hi, c.y.hi;
      match dragType {
        case TopLeft => l, t := r - w, b - h;
        case TopRight => r, t := l + w, b - h;
        case BottomLeft => l, b := r - w, t + h;
        case BottomRight => r, b := l + w, t + h;
        case _ => l, t, r, b := (l + r - w) / 2.0, (t + b - h) / 2.0, (l + r + w) / 2.0, (t + b + h) / 2.0;
      }
      placed := Box(Span(l, r), Span(t, b));
    }

    /** The area keeps the proportions of a size from now on. */
    method Constrain(width: real, height: real)
      requires Valid() && width > 0.0 && height > 0.0
      modifies this`ratio, this`isConstrained, this`box
      ensures Valid() && isConstrained && ratio == RatioOf(width, height)
      ensures var first := Check(old(box), maxWidth, maxHeight);
        var placed := Dependent(Constrained(first, ratio, dragType), ratio);
        box.x.Size() * height == box.y.Size() * width
        <==> Kept(placed, if ratio.h == 1.0 then maxWidth else maxHeight)
    {
      hide Check, Constrained, Stored, HasRatio, Dependent, Kept, Inside;
      ratio := if width < height then Ratio(width / height, 1.0) else Ratio(1.0, height / width);
      isConstrained := true;
      RatioIsRequested(box, width, height);
      StoredRatio(box, maxWidth, maxHeight, ratio, dragType);
      SetArea(box.x.lo, box.y.lo, box.x.hi, box.y.hi);
      RatioIsRequested(box, width, height);
    }

    method DisableConstrain()
      modifies this`ratio, this`isConstrained
      ensures !isConstrained && ratio == Ratio(1.0, 1.0)
    {
      isConstrained := false;
      ratio := Ratio(1.0, 1.0);
    }

    /** The mouse has moved to a point of the represented area. */
    method MouseDragged(x: real, y: real)
      requires Valid()
      modifies this`box, this`startX, this`startY
      ensures Valid()
      ensures dragType == None ==> box == old(box)
      ensures dragType != None ==>
                && startX == x && startY == y
                && box == Stored(Dragged(old(box), x - old(startX), y - old(startY), maxWidth, maxHeight, dragType,
                                         15.0 * scaleW, 15.0 * scaleH),
                                 maxWidth, maxHeight, isConstrained, ratio, dragType)
      ensures dragType == Whole && (isConstrained ==> HasRatio(old(box), ratio)) ==>
                && box.x.Size() == old(box.x.Size()) && box.y.Size() == old(box.y.Size())
                && Pushed(old(box).x, box.x, x - old(startX), maxWidth)
                && Pushed(old(box).y, box.y, y - old(startY), maxHeight)
      ensures dragType != None && dragType != Whole && !isConstrained && scaleW >= 0.0 && scaleH >= 0.0 ==>
                CornerFollows(old(box), box, x - old(startX), y - old(startY), maxWidth, maxHeight, dragType,
                              15.0 * scaleW, 15.0 * scaleH)
    {
      hide Stored, Slid, LowDragged, HighDragged, Check, Inside, HasRatio, Pushed, CornerFollows;
      if dragType == None {
        return;
      }
      var dx, dy := x - startX, y - startY;
      startX, startY := x, y;
      var l, t, r, b := box.x.lo, box.y.lo, box.x.hi, box.y.hi;
      if dragType == Whole {
        if isConstrained ==> HasRatio(box, ratio) {
          WholeDragKeepsSize(box, dx, dy, maxWidth, maxHeight, isConstrained, ratio);
          WholeDragGoes(box, dx, dy, maxWidth, maxHeight, isConstrained, ratio);
        }
        MovedFirst(box.x, dx, maxWidth, 0.0);
        MovedFirst(box.y, dy, maxHeight, 0.0);
        l, r, t, b := l + dx, r + dx, t + dy, b + dy;
        l, r := SlideBack(l, r, maxWidth);
        t, b := SlideBack(t, b, maxHeight);
      } else {
        var mx, my := 15.0 * scaleW, 15.0 * scaleH;
        if scaleW >= 0.0 && scaleH >= 0.0 {
          CornerDragGoes(box, dx, dy, maxWidth, maxHeight, ratio, dragType, mx, my);
        }
        MovedFirst(box.x, dx, maxWidth, mx);
        MovedFirst(box.y, dy, maxHeight, my);
        if dragType == TopLeft || dragType == BottomLeft {
          l := LimitLow(l + dx, r, mx);
        } else {
          r := LimitHigh(l, r + dx, maxWidth, mx);
        }
        if dragType == TopLeft || dragType == TopRight {
          t := LimitLow(t + dy, b, my);
        } else {
          b := LimitHigh(t, b + dy, maxHeight, my);
        }
      }
      SetArea(l, t, r, b);
    }

    static method SlideBack(l: real, r: real, max: real) returns (l': real, r': real)
      ensures Span(l', r') == Slid(Span(l, r), 0.0, max)
    {
      l', r' := l, r;
      if l' < 0.0 {
        r' := r' + (0.0 - l');
        l' := 0.0;
      } else if r' > max - 1.0 {
        l' := l' + (max - 1.0 - r');
        r' := max - 1.0;
      }
    }

    static method LimitLow(l: real, r: real, min: real) returns (l': real)
      ensures Span(l', r) == LowDragged(Span(l, r), 0.0, min)
    {
      l' := if l < 0.0 then 0.0 else if l > r - min then r - min else l;
    }

    static method LimitHigh(l: real, r: real, max: real, min: real) returns (r': real)
      ensures Span(l, r') == HighDragged(Span(l, r), 0.0, max, min)
    {
      r' := if r > max - 1.0 then max - 1.0 else if r < l + min then l + min else r;
    }

    /** The largest area: everything, or the widest or highest box of the ratio around the
        present centre. */
    method ResetToAll()
      requires Valid()
      modifies this`box
      ensures Valid()
      ensures box == Stored(Largest(old(box), maxWidth, maxHeight, isConstrained, ratio),
                            maxWidth, maxHeight, isConstrained, ratio, dragType)
    {
      hide Stored, Inside;
      var l, t, r, b := 0.0, 0.0, maxWidth - 1.0, maxHeight - 1.0;
      if isConstrained {
        if ratio.w == 1.0 {
          var m, q := box.y.lo + box.y.hi, maxWidth * ratio.h;
          t, b := (m - q) / 2.0, (m + q) / 2.0;
        } else {
          var m, q := box.x.lo + box.x.hi, maxHeight * ratio.w;
          l, r := (m - q) / 2.0, (m + q) / 2.0;
        }
      }
      assert Box(Span(l, r), Span(t, b)) == Largest(box, maxWidth, maxHeight, isConstrained, ratio);
      SetArea(l, t, r, b);
    }
  }
}
