/** The geometry message: from the preference pane's preset to the daemon and back. */
module Geometry {
  import opened Text

  /** What a preset says about mapping, and what the daemon's answer says. */
  datatype Layout = Layout(
    tl: int, tt: int, tr: int, tb: int,
    sl: int, st: int, sr: int, sb: int,
    tip: int, side1: int, side2: int, eraser: int,
    mouse: bool)

  /** An integral rectangle. Its edges are read the CoreGraphics way, in which a negative
      size extends to the other side. */
  datatype Frame = Frame(x: int, y: int, w: int, h: int)

  function Low(origin: int, size: int): (v: int) {
    if size < 0 then origin + size else origin
  }

  function High(origin: int, size: int): (v: int) {
    if size < 0 then origin else origin + size
  }

  // ---- message texts ----

  function Literals(s: string): (fmt: seq<Item>) {
    if s == [] then [] else [Lit(s[0])] + Literals(s[1..])
  }

  /** Numbers with the given texts between them. */
  function FormatOf(between: seq<string>): (fmt: seq<Item>) {
    if between == [] then [Num(1, 0)]
    else [Num(1, 0)] + Literals(between[0]) + FormatOf(between[1..])
  }

  /** Two rectangles, four buttons and the mouse flag. */
  const BETWEEN: seq<string> := [" ", " ", " ", " : ", " ", " ", " ", " : ", " ", " ", " ", " : "]

  lemma {:induction false} LiteralInFront(c: char, fmt: seq<Item>, ns: seq<int>)
    requires |ns| == Numbers(fmt) && Separated(fmt) && Fits(fmt, ns)
    ensures Numbers([Lit(c)] + fmt) == Numbers(fmt) && Separated([Lit(c)] + fmt) && Fits([Lit(c)] + fmt, ns)
  {
    assert ([Lit(c)] + fmt)[1..] == fmt;
  }

  lemma {:induction false} LiteralsInFormat(s: string, fmt: seq<Item>, ns: seq<int>)
    requires |ns| == Numbers(fmt) && Separated(fmt) && Fits(fmt, ns)
    ensures Numbers(Literals(s) + fmt) == Numbers(fmt) && Separated(Literals(s) + fmt) && Fits(Literals(s) + fmt, ns)
    decreases |s|
  {
    if s == [] {
      assert Literals(s) + fmt == fmt;
    } else {
      LiteralsInFormat(s[1..], fmt, ns);
      assert Literals(s) + fmt == [Lit(s[0])] + (Literals(s[1..]) + fmt);
      LiteralInFront(s[0], Literals(s[1..]) + fmt, ns);
      hide Numbers, Separated, Fits, Literals;
    }
  }

  /** Texts that a number cannot run into. */
  predicate Separating(between: seq<string>) {
    forall i :: 0 <= i < |between| ==> between[i] != [] && !IsDigit(between[i][0])
  }

  lemma {:induction false} FormatIsGood(between: seq<string>, ns: seq<int>)
    requires |ns| == |between| + 1 && Separating(between)
    ensures var fmt := FormatOf(between); Numbers(fmt) == |ns| && Separated(fmt) && Fits(fmt, ns)
    decreases |between|
  {
    var fmt := FormatOf(between);
    if between == [] {
      assert fmt[1..] == [];
    } else {
      var more := FormatOf(between[1..]);
      FormatIsGood(between[1..], ns[1..]);
      LiteralsInFormat(between[0], more, ns[1..]);
      assert fmt[1..] == Literals(between[0]) + more;
      assert Literals(between[0])[0] == Lit(between[0][0]) == fmt[1];
    }
  }

  function Values(g: Layout): (ns: seq<int>)
    ensures |ns| == |BETWEEN| + 1
  {
    [g.tl, g.tt, g.tr, g.tb, g.sl, g.st, g.sr, g.sb, g.tip, g.side1, g.side2, g.eraser, if g.mouse then 1 else 0]
  }

  function LayoutOf(ns: seq<int>): (g: Layout)
    requires |ns| == |BETWEEN| + 1
  {
    Layout(ns[0], ns[1], ns[2], ns[3], ns[4], ns[5], ns[6], ns[7], ns[8], ns[9], ns[10], ns[11], ns[12] != 0)
  }

  lemma {:induction false} MessageFormat(g: Layout)
    ensures var fmt := FormatOf(BETWEEN);
      Numbers(fmt) == |BETWEEN| + 1 && Separated(fmt) && Fits(fmt, Values(g))
  {
    FormatIsGood(BETWEEN, Values(g));
  }

  /** A message: its name, the numbers, and the mouse scaling as printed. */
  function Message(name: string, g: Layout, scaling: string): (s: string) {
    MessageFormat(g);
    name + [' '] + PrintAll(FormatOf(BETWEEN), Values(g)) + [' '] + scaling
  }

  lemma {:induction false} NumbersOfMessage()
    ensures Numbers(FormatOf(BETWEEN)) == |BETWEEN| + 1
  {
    FormatIsGood(BETWEEN, seq(|BETWEEN| + 1, _ => 0));
  }

  function SkipWord(s: string): (t: string) {
    if s == [] || s[0] == ' ' then s else SkipWord(s[1..])
  }

  function SkipBlanks(s: string): (t: string) {
    if s == [] || s[0] != ' ' then s else SkipBlanks(s[1..])
  }

  /** The numbers of a message, up to the first mismatch. */
  function Scanned(s: string): (ns: seq<int>)
    ensures |ns| <= |BETWEEN| + 1
  {
    NumbersOfMessage();
    ScanAll(FormatOf(BETWEEN), SkipBlanks(SkipWord(s)))
  }

  lemma {:induction false} WordSkipped(name: string, rest: string)
    requires forall i :: 0 <= i < |name| ==> name[i] != ' '
    requires rest != [] && rest[0] == ' '
    ensures SkipWord(name + rest) == rest
    decreases |name|
  {
    if name == [] {
      assert name + rest == rest;
    } else {
      assert (name + rest)[1..] == name[1..] + rest;
      WordSkipped(name[1..], rest);
    }
  }

  /** A message scans back to the layout it was printed from. */
  lemma {:induction false} MessageScans(name: string, g: Layout, scaling: string)
    requires forall i :: 0 <= i < |name| ==> name[i] != ' '
    ensures Scanned(Message(name, g, scaling)) == Values(g)
    ensures LayoutOf(Values(g)) == g
  {
    assert LayoutOf(Values(g)) == g;
    MessageFormat(g);
    hide FormatOf, PrintAll, ScanAll, Values, LayoutOf, Numbers, Separated, Fits, SkipWord, SkipBlanks;
    var fmt, tail := FormatOf(BETWEEN), [' '] + scaling;
    var body := PrintAll(fmt, Values(g));
    Pieces(name, body, scaling);
    PastName(name, body + tail);
    StartsWithNumber(g, tail);
    PrintedAllScans(fmt, Values(g), tail);
  }

  lemma {:induction false} Pieces(name: string, body: string, scaling: string)
    ensures name + [' '] + body + [' '] + scaling == name + ([' '] + (body + ([' '] + scaling)))
  {
  }

  lemma {:induction false} PastName(name: string, rest: string)
    requires forall i :: 0 <= i < |name| ==> name[i] != ' '
    ensures SkipBlanks(SkipWord(name + ([' '] + rest))) == SkipBlanks(rest)
  {
    WordSkipped(name, [' '] + rest);
    assert ([' '] + rest)[1..] == rest;
  }

  lemma {:induction false} StartsWithNumber(g: Layout, tail: string)
    ensures Numbers(FormatOf(BETWEEN)) == |BETWEEN| + 1
    ensures SkipBlanks(PrintAll(FormatOf(BETWEEN), Values(g)) + tail) == PrintAll(FormatOf(BETWEEN), Values(g)) + tail
  {
    MessageFormat(g);
    var p, n := PrintAll(FormatOf(BETWEEN), Values(g)), Print(Values(g)[0], 1);
    assert FormatOf(BETWEEN)[0] == Num(1, 0);
    PrintStarts(Values(g)[0]);
    assert p[0] == n[0] && (p + tail)[0] == n[0];
  }

  lemma {:induction false} PrintStarts(v: int)
    ensures Print(v, 1) != [] && Print(v, 1)[0] != ' '
  {
    if v >= 0 {
      ValueOfPad(Dec(v), 1);
    }
  }

  /** The scanned numbers, and for the missing ones what was there before. */
  function Completed(ns: seq<int>, junk: seq<int>): (all: seq<int>)
    requires |ns| <= |junk|
    ensures |all| == |junk| && all[..|ns|] == ns
  {
    ns + junk[|ns|..]
  }

  // ---- the daemon ----

  /** A value cut to sixteen signed bits. */
  function Short(v: int): (s: int) {
    (v + 32768) % 65536 - 32768
  }

  /** One axis of InitTabletBounds: -1 stands for a bound not given. */
  function TabletAxis(first: int, last: int, scale: int): (r: (int, int)) {
    var origin := if first != -1 then first else 0;
    (origin, if last != -1 then last - origin + 1 else scale)
  }

  /** One axis of SetScreenMapping. */
  function ScreenAxis(first: int, last: int, side: int): (r: (int, int)) {
    var origin := if Short(first) == -1 then 0 else Short(first);
    (origin, if Short(last) == -1 then side - origin else Short(last) - origin + 1)
  }

  /** What the daemon reports for a layout: its mapping's edges. */
  function Reported(g: Layout, xscale: int, yscale: int, width: int, height: int): (r: Layout) {
    var tx, ty := TabletAxis(g.tl, g.tr, xscale), TabletAxis(g.tt, g.tb, yscale);
    var sx, sy := ScreenAxis(g.sl, g.sr, width), ScreenAxis(g.st, g.sb, height);
    g.(tl := Low(tx.0, tx.1), tr := High(tx.0, tx.1) - 1, tt := Low(ty.0, ty.1), tb := High(ty.0, ty.1) - 1,
       sl := Low(sx.0, sx.1), sr := High(sx.0, sx.1) - 1, st := Low(sy.0, sy.1), sb := High(sy.0, sy.1) - 1)
  }

  /** The daemon's side: mapped areas, button mapping and mouse mode, with the tablet scale
      and the size of all screens. */
  class Daemon {
    const xscale: int
    const yscale: int
    const width: int
    const height: int
    var tablet: Frame
    var screen: Frame
    var tip: int
    var side1: int
    var side2: int
    var eraser: int
    var mouse: bool

    constructor (xscale: int, yscale: int, width: int, height: int)
      ensures this.xscale == xscale && this.yscale == yscale && this.width == width && this.height == height
    {
      this.xscale, this.yscale, this.width, this.height := xscale, yscale, width, height;
      tablet, screen := Frame(0, 0, xscale, yscale), Frame(0, 0, width, height);
      tip, side1, side2, eraser, mouse := 1, 1, 2, 6, false;
    }

    method InitTabletBounds(x1: int, y1: int, x2: int, y2: int)
      modifies this`tablet
      ensures (tablet.x, tablet.w) == TabletAxis(x1, x2, xscale)
      ensures (tablet.y, tablet.h) == TabletAxis(y1, y2, yscale)
    {
      tablet := tablet.(x := if x1 != -1 then x1 else 0);
      tablet := tablet.(y := if y1 != -1 then y1 else 0);
      tablet := tablet.(w := if x2 != -1 then x2 - tablet.x + 1 else xscale);
      tablet := tablet.(h := if y2 != -1 then y2 - tablet.y + 1 else yscale);
    }

    method SetScreenMapping(left: int, top: int, right: int, bottom: int)
      modifies this`screen
      ensures (screen.x, screen.w) == ScreenAxis(left, right, width)
      ensures (screen.y, screen.h) == ScreenAxis(top, bottom, height)
    {
      var x1, y1, x2, y2 := Short(left), Short(top), Short(right), Short(bottom);
      x1 := if x1 == -1 then 0 else x1;
      y1 := if y1 == -1 then 0 else y1;
      screen := Frame(x1, y1,
                      if x2 == -1 then width - x1 else x2 - x1 + 1,
                      if y2 == -1 then height - y1 else y2 - y1 + 1);
    }

    /** The geometry case of HandleMessage. Numbers that the message lacks are whatever the
        variables happen to hold. */
    method HandleGeometry(message: string, junk: seq<int>)
      requires |junk| == |BETWEEN| + 1
      modifies this
      ensures Current() == Reported(LayoutOf(Completed(Scanned(message), junk)), xscale, yscale, width, height)
    {
      hide Scanned;
      var g := LayoutOf(Completed(Scanned(message), junk));
      mouse := g.mouse;
      InitTabletBounds(g.tl, g.tt, g.tr, g.tb);
      SetScreenMapping(g.sl, g.st, g.sr, g.sb);
      tip, side1, side2, eraser := g.tip, g.side1, g.side2, g.eraser;
    }

    function Current(): (g: Layout)
      reads this
    {
      Layout(Low(tablet.x, tablet.w), Low(tablet.y, tablet.h),
             High(tablet.x, tablet.w) - 1, High(tablet.y, tablet.h) - 1,
             Low(screen.x, screen.w), Low(screen.y, screen.h),
             High(screen.x, screen.w) - 1, High(screen.y, screen.h) - 1,
             tip, side1, side2, eraser, mouse)
    }

    method GetMessageGeometry(scaling: string) returns (message: string)
      ensures message == Message(FROM_DAEMON, Current(), scaling)
    {
      message := Message(FROM_DAEMON, Current(), scaling);
    }
  }

  // ---- round trip ----

  /** Bounds as the preference pane makes them: none negative. */
  predicate NonNegative(g: Layout) {
    g.tl >= 0 && g.tt >= 0 && g.tr >= 0 && g.tb >= 0 && g.sl >= 0 && g.st >= 0 && g.sr >= 0 && g.sb >= 0
  }

  /** No rectangle turned inside out; one without any extent still passes. */
  predicate Ordered(g: Layout) {
    g.tl <= g.tr + 1 && g.tt <= g.tb + 1 && g.sl <= g.sr + 1 && g.st <= g.sb + 1
  }

  predicate ScreenFits(g: Layout) {
    g.sl <= 32767 && g.st <= 32767 && g.sr <= 32767 && g.sb <= 32767
  }

  lemma {:induction false} ScreenAxisExact(first: int, last: int, side: int)
    requires first >= 0 && last >= 0 && 0 < side <= 32768
    ensures var r := ScreenAxis(first, last, side);
      Low(r.0, r.1) == first && High(r.0, r.1) - 1 == last <==> first <= last + 1 && first <= 32767 && last <= 32767
  {
  }

  /** The daemon reports back exactly the layout it was given, if and only if no rectangle
      is inside out and the screen values fit sixteen bits. */
  lemma {:induction false} ReportedIsGiven(g: Layout, xscale: int, yscale: int, width: int, height: int)
    requires NonNegative(g) && 0 < width <= 32768 && 0 < height <= 32768
    ensures Reported(g, xscale, yscale, width, height) == g <==> Ordered(g) && ScreenFits(g)
  {
    ScreenAxisExact(g.sl, g.sr, width);
    ScreenAxisExact(g.st, g.sb, height);
  }

  /** Bounds that are not given: -1 twice takes the whole side. With only the last one not
      given, a screen area reaches to the end of the screen, but a tablet area to the end of
      the tablet if and only if it starts at its edge. */
  lemma {:induction false} NotGiven(first: int, scale: int, side: int)
    requires 0 <= first < side <= 32768 && scale > 0
    ensures TabletAxis(-1, -1, scale) == (0, scale) && ScreenAxis(-1, -1, side) == (0, side)
    ensures var r := ScreenAxis(first, -1, side); Low(r.0, r.1) == first && High(r.0, r.1) - 1 == side - 1
    ensures var r := TabletAxis(first, -1, scale);
      Low(r.0, r.1) == first && (High(r.0, r.1) - 1 == scale - 1 <==> first == 0)
  {
  }

  /** What each side calls the message. */
  const TO_DAEMON := "geom"
  const FROM_DAEMON := "[geom]"

  lemma {:induction false} NamesAreWords()
    ensures forall i :: 0 <= i < |TO_DAEMON| ==> TO_DAEMON[i] != ' '
    ensures forall i :: 0 <= i < |FROM_DAEMON| ==> FROM_DAEMON[i] != ' '
  {
  }

  lemma {:induction false} BothScan(g: Layout, scaling: string)
    ensures Scanned(Message(TO_DAEMON, g, scaling)) == Values(g)
    ensures Scanned(Message(FROM_DAEMON, g, scaling)) == Values(g)
    ensures LayoutOf(Values(g)) == g
  {
    NamesAreWords();
    MessageScans(TO_DAEMON, g, scaling);
    MessageScans(FROM_DAEMON, g, scaling);
  }

  lemma {:induction false} Handled(g: Layout, sent: string, junk: seq<int>)
    requires |junk| == |BETWEEN| + 1
    ensures LayoutOf(Completed(Scanned(Message(TO_DAEMON, g, sent)), junk)) == g
  {
    BothScan(g, sent);
    assert Completed(Values(g), junk) == Values(g);
    hide Scanned, Message, LayoutOf;
  }

  lemma {:induction false} Answered(g: Layout, kept: string)
    ensures var ns := Scanned(Message(FROM_DAEMON, g, kept)); ns == Values(g) && LayoutOf(ns) == g
  {
    BothScan(g, kept);
    hide Scanned, Message, LayoutOf;
  }

  /** The whole way: the pane's message, the daemon's conversion, its answer, the pane's
      scan. Eight bounds, four buttons and the mouse flag survive, if and only if no
      rectangle is inside out and the screen values fit sixteen bits. */
  method SendAndAsk(d: Daemon, g: Layout, sent: string, kept: string, junk: seq<int>) returns (back: Layout)
    requires |junk| == |BETWEEN| + 1
    requires NonNegative(g) && 0 < d.width <= 32768 && 0 < d.height <= 32768
    modifies d
    ensures back == g <==> Ordered(g) && ScreenFits(g)
  {
    hide Scanned, LayoutOf, Completed, Message, Reported, Ordered, ScreenFits, Daemon.Current;
    Handled(g, sent, junk);
    d.HandleGeometry(Message(TO_DAEMON, g, sent), junk);
    ReportedIsGiven(g, d.xscale, d.yscale, d.width, d.height);
    Answered(d.Current(), kept);
    var answer := d.GetMessageGeometry(kept);
    back := LayoutOf(Scanned(answer));
  }
}
