/** Button presses and proximity, and the motion reported along the way. */
module Proximity {
  import opened Stylus
  import opened Events
  import opened EventRuns
  import opened Alternation

  predicate IsPress(e: Event) {
    (e.Left? || e.Right? || e.Other?) && e.down
  }

  /** Every press happens while the last proximity report was an enter. */
  predicate Bracketed(near: bool, events: seq<Event>) {
    events != [] ==>
      && Bracketed(near, events[..|events| - 1])
      && (IsPress(events[|events| - 1]) ==> Level(near, Signal(Nearness, events[..|events| - 1])))
  }

  lemma {:induction false} BracketedConcat(near: bool, a: seq<Event>, b: seq<Event>)
    ensures Bracketed(near, a + b)
            <==> Bracketed(near, a) && Bracketed(Level(near, Signal(Nearness, a)), b)
    decreases |b|
  {
    if b == [] {
      assert a + b == a;
    } else {
      var b0 := b[..|b| - 1];
      assert (a + b)[..|a + b| - 1] == a + b0;
      BracketedConcat(near, a, b0);
      SignalConcat(Nearness, a, b0);
      AlternatesConcat(near, Signal(Nearness, a), Signal(Nearness, b0));
    }
  }

  predicate HasPress(events: seq<Event>) {
    exists i :: 0 <= i < |events| && IsPress(events[i])
  }

  lemma {:induction false} WithoutCrossing(near: bool, events: seq<Event>)
    requires Signal(Nearness, events) == []
    ensures Bracketed(near, events) <==> near || !HasPress(events)
    decreases |events|
  {
    if events != [] {
      WithoutCrossing(near, events[..|events| - 1]);
    }
  }

  lemma {:induction false} Regroup<T>(a: seq<T>, b: seq<T>, c: seq<T>, d: seq<T>)
    ensures a + b + c + d == a + (b + c + d)
  {
  }

  /** Everything a call posts after the proximity report. */
  function Rest(mem: Memory, t: Tick): (events: seq<Event>) {
    var now := SystemOf(t.mapping, t.pen.buttons);
    Presses(mem.system, now, mem.drag) + Others(mem.system, now) + Drift(mem, t.pen, t.mapping, t.to)
  }

  lemma {:induction false} CrossingFirst(mem: Memory, t: Tick)
    ensures Post(mem, t.pen, t.mapping, t.to).events == Crossing(mem, t.pen, t.mapping, t.to) + Rest(mem, t)
  {
    var now := SystemOf(t.mapping, t.pen.buttons);
    Regroup(Crossing(mem, t.pen, t.mapping, t.to), Presses(mem.system, now, mem.drag), Others(mem.system, now),
            Drift(mem, t.pen, t.mapping, t.to));
  }

  lemma {:induction false} RestKeepsNearness(mem: Memory, t: Tick)
    ensures Signal(Nearness, Rest(mem, t)) == []
  {
    var now := SystemOf(t.mapping, t.pen.buttons);
    EdgesSignal(Nearness, mem, t.pen, t.mapping, t.to);
    PressesSignal(Nearness, mem.system, now, mem.drag);
    OthersAreSilent(Nearness, mem.system, now);
    SignalThree(Nearness, Presses(mem.system, now, mem.drag), Others(mem.system, now), Drift(mem, t.pen, t.mapping,
                t.to));
  }

  /** A grab that starts because the pen was lifted: the only press away from the tablet. */
  predicate GrabsOnLift(mem: Memory, t: Tick) {
    t.pen.offTablet && Released(mem.system, SystemOf(t.mapping, t.pen.buttons)) && !mem.drag
  }

  lemma {:induction false} HasPressConcat(a: seq<Event>, b: seq<Event>)
    ensures HasPress(a + b) <==> HasPress(a) || HasPress(b)
  {
    if i :| 0 <= i < |a| && IsPress(a[i]) {
      assert IsPress((a + b)[i]);
    }
    if i :| 0 <= i < |b| && IsPress(b[i]) {
      assert IsPress((a + b)[|a| + i]);
    }
  }

  lemma {:induction false} PressesOfNone(was: System, drag: bool)
    ensures HasPress(Presses(was, NONE, drag)) <==> Released(was, NONE) && !drag
    ensures !HasPress(Others(was, NONE))
  {
    var g, b1 := GrabOrDrop(was, NONE, drag), Button1(was, NONE, drag);
    var b2, e := Button2(was, NONE), EraserTip(was, NONE);
    assert DoubleClick(was, NONE) + SingleClick(was, NONE) + g == g;
    assert !HasPress(b1) && !HasPress(b2) && !HasPress(e);
    HasPressConcat(g + b1 + b2, e);
    HasPressConcat(g + b1, b2);
    HasPressConcat(g, b1);
    if Released(was, NONE) && !drag {
      assert IsPress(g[0]);
    }
    var o2, o3 := OtherButton(2, was.button3, false), OtherButton(3, was.button4, false);
    HasPressConcat(o2 + o3, OtherButton(4, was.button5, false));
    HasPressConcat(o2, o3);
  }

  lemma {:induction false} PressesWhenReleased(mem: Memory, t: Tick)
    requires t.pen.offTablet && t.pen.buttons == RELEASED
    ensures HasPress(Rest(mem, t)) <==> GrabsOnLift(mem, t)
  {
    var now := SystemOf(t.mapping, t.pen.buttons);
    assert now == NONE;
    PressesOfNone(mem.system, mem.drag);
    HasPressConcat(Presses(mem.system, now, mem.drag) + Others(mem.system, now), Drift(mem, t.pen, t.mapping, t.to));
    HasPressConcat(Presses(mem.system, now, mem.drag), Others(mem.system, now));
  }

  lemma {:induction false} CrossingIsNoPress(mem: Memory, t: Tick)
    ensures Bracketed(!mem.offTablet, Crossing(mem, t.pen, t.mapping, t.to))
  {
    var c := Crossing(mem, t.pen, t.mapping, t.to);
    assert Bracketed(!mem.offTablet, []);
    if c != [] {
      assert c[..0] == [];
    }
  }

  lemma {:induction false} PostBrackets(mem: Memory, t: Tick)
    requires t.pen.offTablet ==> t.pen.buttons == RELEASED
    ensures Bracketed(!mem.offTablet, Post(mem, t.pen, t.mapping, t.to).events) <==> !GrabsOnLift(mem, t)
  {
    var c := Crossing(mem, t.pen, t.mapping, t.to);
    CrossingFirst(mem, t);
    RestKeepsNearness(mem, t);
    EdgesSignal(Nearness, mem, t.pen, t.mapping, t.to);
    BracketedConcat(!mem.offTablet, c, Rest(mem, t));
    CrossingIsNoPress(mem, t);
    ChangeAlternates(!mem.offTablet, !t.pen.offTablet);
    WithoutCrossing(!t.pen.offTablet, Rest(mem, t));
    if t.pen.offTablet {
      PressesWhenReleased(mem, t);
      hide *;
    } else {
      assert !GrabsOnLift(mem, t);
      hide *;
    }
  }

  /** Pens as the decoders leave them: nothing pressed off the tablet. */
  ghost predicate SettledPens(ticks: seq<Tick>) {
    forall i :: 0 <= i < |ticks| ==> ticks[i].pen.offTablet ==> ticks[i].pen.buttons == RELEASED
  }

  /** In no call of the run is the grab button let go by lifting the pen while no drag is on. */
  predicate NeverGrabsOnLift(ticks: seq<Tick>) {
    ticks != [] ==>
      && NeverGrabsOnLift(ticks[..|ticks| - 1])
      && !GrabsOnLift(Play(ticks[..|ticks| - 1]).memory, ticks[|ticks| - 1])
  }

  lemma {:induction false} NearnessWatched(mem: Memory)
    ensures Watched(Nearness, mem) == !mem.offTablet
  {
  }

  lemma {:induction false} BracketStep(ticks: seq<Tick>)
    requires ticks != [] && SettledPens(ticks)
    ensures var init := ticks[..|ticks| - 1];
      Bracketed(false, Play(ticks).events)
      <==> Bracketed(false, Play(init).events) && !GrabsOnLift(Play(init).memory, ticks[|ticks| - 1])
  {
    hide Play, Bracketed, Post, GrabsOnLift, Signal, Alternates, Level, Watched;
    PlayNext(ticks, |ticks| - 1);
    assert ticks[..|ticks| - 1 + 1] == ticks;
    var before, t := Play(ticks[..|ticks| - 1]), ticks[|ticks| - 1];
    NearnessWatched(before.memory);
    BracketedConcat(false, before.events, Post(before.memory, t.pen, t.mapping, t.to).events);
    ChannelsAlternate(Nearness, ticks[..|ticks| - 1]);
    PostBrackets(before.memory, t);
  }

  /** Over every run, with any button mapping: each press lies between an enter and the
      matching leave, if and only if the grab button is never let go by lifting the pen
      while no drag is on. */
  lemma {:induction false} PressesAreBracketed(ticks: seq<Tick>)
    requires SettledPens(ticks)
    ensures Bracketed(false, Play(ticks).events) <==> NeverGrabsOnLift(ticks)
    decreases |ticks|
  {
    if ticks != [] {
      PressesAreBracketed(ticks[..|ticks| - 1]);
      BracketStep(ticks);
    }
  }

  lemma {:induction false} NeverGrabbing(ticks: seq<Tick>)
    requires NeverGrabs(ticks)
    ensures !Play(ticks).memory.system.grab && NeverGrabsOnLift(ticks)
    decreases |ticks|
  {
    if ticks != [] {
      assert !ticks[|ticks| - 1].mapping.Uses(CLICK_OR_RELEASE);
      NeverGrabbing(ticks[..|ticks| - 1]);
    }
  }

  /** In particular always, when grab/drop is not mapped. */
  lemma {:induction false} BracketedWithoutGrab(ticks: seq<Tick>)
    requires SettledPens(ticks)
    requires NeverGrabs(ticks)
    ensures Bracketed(false, Play(ticks).events)
  {
    NeverGrabbing(ticks);
    PressesAreBracketed(ticks);
  }

  // ---- relative motion ----

  datatype Reported = Reported(to: Point, delta: Point)

  function Reports(events: seq<Event>): (r: seq<Reported>) {
    if events == [] then []
    else
      var e := events[|events| - 1];
      Reports(events[..|events| - 1]) + if e.Proximity? || e.Move? then [Reported(e.to, e.delta)] else []
  }

  function Travel(r: seq<Reported>): (p: Point) {
    if r == [] then Point(0, 0)
    else
      var before := Travel(r[..|r| - 1]);
      Point(before.x + r[|r| - 1].delta.x, before.y + r[|r| - 1].delta.y)
  }

  lemma {:induction false} ReportsConcat(a: seq<Event>, b: seq<Event>)
    ensures Reports(a + b) == Reports(a) + Reports(b)
    decreases |b|
  {
    if b == [] {
      assert a + b == a;
    } else {
      assert (a + b)[..|a + b| - 1] == a + b[..|b| - 1];
      ReportsConcat(a, b[..|b| - 1]);
    }
  }

  lemma {:induction false} NoReports(events: seq<Event>)
    requires forall i :: 0 <= i < |events| ==> !events[i].Proximity? && !events[i].Move?
    ensures Reports(events) == []
  {
    if events != [] {
      NoReports(events[..|events| - 1]);
    }
  }

  lemma {:induction false} FourReports(a: seq<Event>, b: seq<Event>, c: seq<Event>, d: seq<Event>)
    ensures Reports(a + b + c + d) == Reports(a) + Reports(b) + Reports(c) + Reports(d)
  {
    ReportsConcat(a + b + c, d);
    ReportsConcat(a + b, c);
    ReportsConcat(a, b);
  }

  lemma {:induction false} SixReports(a: seq<Event>, b: seq<Event>, c: seq<Event>, d: seq<Event>, e: seq<Event>,
                                      f: seq<Event>)
    ensures Reports(a + b + c + d + e + f)
            == Reports(a) + Reports(b) + Reports(c) + Reports(d) + Reports(e) + Reports(f)
  {
    FourReports(a, b, c, d);
    ReportsConcat(a + b + c + d, e);
    ReportsConcat(a + b + c + d + e, f);
  }

  lemma {:induction false} SilentParts(was: System, now: System, drag: bool)
    ensures Reports(DoubleClick(was, now)) == [] && Reports(SingleClick(was, now)) == []
    ensures Reports(GrabOrDrop(was, now, drag)) == [] && Reports(Button1(was, now, drag)) == []
    ensures Reports(Button2(was, now)) == [] && Reports(EraserTip(was, now)) == []
  {
    NoReports(DoubleClick(was, now));
    NoReports(SingleClick(was, now));
    NoReports(GrabOrDrop(was, now, drag));
    NoReports(Button1(was, now, drag));
    NoReports(Button2(was, now));
    NoReports(EraserTip(was, now));
  }

  lemma {:induction false} SilentPresses(was: System, now: System, drag: bool)
    ensures Reports(Presses(was, now, drag)) == []
  {
    SilentParts(was, now, drag);
    SixReports(DoubleClick(was, now), SingleClick(was, now), GrabOrDrop(was, now, drag),
               Button1(was, now, drag), Button2(was, now), EraserTip(was, now));
  }

  lemma {:induction false} SilentOthers(was: System, now: System)
    ensures Reports(Others(was, now)) == []
  {
    NoReports(Others(was, now));
  }

  /** The motion reports of one call: none, one or two. */
  lemma {:induction false} PostReports(mem: Memory, t: Tick)
    ensures var r := Post(mem, t.pen, t.mapping, t.to);
      var a, b := Crossing(mem, t.pen, t.mapping, t.to), Drift(mem, t.pen, t.mapping, t.to);
      Reports(r.events) == Reports(a) + Reports(b)
      && Reports(a) == (if a == [] then [] else [Reported(t.to, Delta(mem.lastPos, t.to))])
      && Reports(b) == (if b == [] then [] else [Reported(t.to, Delta(PosAfterCrossing(mem, t.pen, t.to), t.to))])
  {
    var now := SystemOf(t.mapping, t.pen.buttons);
    var a, b := Crossing(mem, t.pen, t.mapping, t.to), Drift(mem, t.pen, t.mapping, t.to);
    var p, o := Presses(mem.system, now, mem.drag), Others(mem.system, now);
    FourReports(a, p, o, b);
    SilentPresses(mem.system, now, mem.drag);
    SilentOthers(mem.system, now);
    CrossingReport(mem, t);
    DriftReport(mem, t);
    hide Reports, Crossing, Drift, Presses, Others, Delta, PosAfterCrossing, SystemOf;
    assert Reports(a) + [] + [] + Reports(b) == Reports(a) + Reports(b);
  }

  lemma {:induction false} CrossingReport(mem: Memory, t: Tick)
    ensures var a := Crossing(mem, t.pen, t.mapping, t.to);
      Reports(a) == if a == [] then [] else [Reported(t.to, Delta(mem.lastPos, t.to))]
  {
    hide Delta, MotionKind, PointerAfter, SystemOf;
    var a := Crossing(mem, t.pen, t.mapping, t.to);
    if a != [] {
      assert a[..0] == [] && Reports([]) == [];
    }
  }

  lemma {:induction false} DriftReport(mem: Memory, t: Tick)
    ensures var b := Drift(mem, t.pen, t.mapping, t.to);
      Reports(b) == if b == [] then [] else [Reported(t.to, Delta(PosAfterCrossing(mem, t.pen, t.to), t.to))]
  {
    hide Delta, MotionKind, PosAfterCrossing, SystemOf, Presses;
    var b := Drift(mem, t.pen, t.mapping, t.to);
    if b != [] {
      assert b[..0] == [] && Reports([]) == [];
    }
  }

  /** Where the first delta counts from. */
  const NOWHERE := Point(SHRT_MIN, SHRT_MIN)

  function LastTo(r: seq<Reported>): (p: Point) {
    if r == [] then NOWHERE else r[|r| - 1].to
  }

  /** Each delta counts from the report before. */
  ghost predicate Chained(r: seq<Reported>) {
    r != [] ==>
      var init := r[..|r| - 1];
      Chained(init) && r[|r| - 1].delta == Delta(LastTo(init), r[|r| - 1].to)
  }

  lemma {:induction false} OneMoreReport(r: seq<Reported>, to: Point)
    requires Chained(r)
    ensures var s := r + [Reported(to, Delta(LastTo(r), to))]; Chained(s) && LastTo(s) == to
  {
    assert (r + [Reported(to, Delta(LastTo(r), to))])[..|r|] == r;
  }

  lemma {:induction false} PostChains(r: seq<Reported>, mem: Memory, t: Tick)
    requires Chained(r) && LastTo(r) == mem.lastPos
    ensures var p := Post(mem, t.pen, t.mapping, t.to);
      Chained(r + Reports(p.events)) && LastTo(r + Reports(p.events)) == p.memory.lastPos
  {
    var a, b := Crossing(mem, t.pen, t.mapping, t.to), Drift(mem, t.pen, t.mapping, t.to);
    var mid := PosAfterCrossing(mem, t.pen, t.to);
    assert mid == if a == [] then mem.lastPos else t.to;
    assert Post(mem, t.pen, t.mapping, t.to).memory.lastPos == if b == [] then mid else t.to;
    PostReports(mem, t);
    hide Post, Chained, LastTo, Reports, Crossing, Drift, Delta, Presses, Others, PosAfterCrossing, SystemOf;
    Appended(r, Reports(a), Reports(b));
    if a != [] {
      OneMoreReport(r, t.to);
    }
    if b != [] {
      OneMoreReport(r + Reports(a), t.to);
    }
  }

  lemma {:induction false} Appended<T>(r: seq<T>, a: seq<T>, b: seq<T>)
    ensures r + (a + b) == (r + a) + b
    ensures a == [] ==> r + a == r
    ensures b == [] ==> (r + a) + b == r + a
  {
  }

  /** Over every run each reported delta counts from the report before, and the position
      remembered is the last one reported. */
  lemma {:induction false} ReportsChain(ticks: seq<Tick>)
    ensures var r := Reports(Play(ticks).events); Chained(r) && LastTo(r) == Play(ticks).memory.lastPos
    decreases |ticks|
  {
    hide Post, Reports, Delta, Chained, LastTo;
    if ticks == [] {
      NothingReported();
    } else {
      var before, t := Play(ticks[..|ticks| - 1]), ticks[|ticks| - 1];
      ReportsChain(ticks[..|ticks| - 1]);
      ReportsConcat(before.events, Post(before.memory, t.pen, t.mapping, t.to).events);
      PostChains(Reports(before.events), before.memory, t);
    }
  }

  lemma {:induction false} NothingReported()
    ensures Reports([]) == [] && Chained([]) && LastTo([]) == NOWHERE
  {
  }

  function Minus(p: Point, q: Point): (d: Point) {
    Point(p.x - q.x, p.y - q.y)
  }

  predicate IsWay(d: Point, from: Point, to: Point) {
    d.x == to.x - from.x && d.y == to.y - from.y
  }

  function Plus(p: Point, q: Point): (d: Point) {
    Point(p.x + q.x, p.y + q.y)
  }

  /** What a report goes on by without its delta saying so: all the way, after a position
      that looks like none. */
  function Unsaid(from: Point, to: Point): (d: Point) {
    if from.x == SHRT_MIN then Minus(to, from) else Point(0, 0)
  }

  function Lost(r: seq<Reported>): (p: Point) {
    if r == [] then Point(0, 0)
    else
      var init := r[..|r| - 1];
      if init == [] then Point(0, 0) else Plus(Lost(init), Unsaid(LastTo(init), r[|r| - 1].to))
  }

  lemma {:induction false} Snoc(r: seq<Reported>, e: Reported)
    requires Chained(r + [e])
    ensures Chained(r) && e.delta == Delta(LastTo(r), e.to) && LastTo(r + [e]) == e.to
    ensures Travel(r + [e]) == Plus(Travel(r), e.delta)
    ensures r != [] ==> Lost(r + [e]) == Plus(Lost(r), Unsaid(LastTo(r), e.to))
  {
    assert (r + [e])[..|r|] == r && (r + [e])[|r|] == e;
    hide Delta, Unsaid;
  }

  lemma {:induction false} DeltaAndUnsaid(from: Point, to: Point)
    ensures IsWay(Plus(Delta(from, to), Unsaid(from, to)), from, to)
  {
  }

  lemma {:induction false} DeltaIsWay(from: Point, to: Point)
    ensures IsWay(Delta(from, to), from, to) <==> from.x == SHRT_MIN ==> to == from
  {
  }

  /** One more step along a way. */
  lemma {:induction false} WayGrows(t: Point, l: Point, d: Point, u: Point, from: Point, mid: Point, to: Point)
    requires IsWay(Plus(t, l), from, mid) && IsWay(Plus(d, u), mid, to)
    ensures IsWay(Plus(Plus(t, d), Plus(l, u)), from, to)
  {
  }

  lemma {:induction false} SameWay(t: Point, d: Point, from: Point, mid: Point, to: Point)
    requires IsWay(t, from, mid)
    ensures IsWay(Plus(t, d), from, to) <==> IsWay(d, mid, to)
  {
  }

  predicate IsZero(d: Point) {
    d.x == 0 && d.y == 0
  }

  lemma {:induction false} PlusParts(p: Point, q: Point)
    ensures Plus(p, q).x == p.x + q.x && Plus(p, q).y == p.y + q.y
  {
  }

  lemma {:induction false} ZeroSum(d: Point, e: Point, p: Point)
    requires IsZero(d) && IsZero(e)
    ensures IsZero(Plus(d, e)) && IsWay(d, p, p)
  {
    hide Plus;
    PlusParts(d, e);
  }

  lemma {:induction false} ZeroStart(to: Point)
    ensures LastTo([]) == NOWHERE && IsZero(Travel([])) && IsZero(Delta(NOWHERE, to))
  {
  }

  lemma {:induction false} LostOne(e: Reported)
    ensures IsZero(Lost([e]))
  {
    assert [e][..0] == [];
  }

  lemma {:induction false} FirstReport(e: Reported)
    requires Chained([e])
    ensures IsWay(Travel([e]), e.to, e.to) && IsWay(Plus(Travel([e]), Lost([e])), e.to, e.to)
  {
    hide Chained, Travel, Lost, Delta, Plus, IsWay, IsZero, LastTo;
    assert [] + [e] == [e];
    Snoc([], e);
    ZeroStart(e.to);
    LostOne(e);
    ZeroSum(Travel([]), e.delta, e.to);
    ZeroSum(Travel([e]), Lost([e]), e.to);
    ZeroSum(Plus(Travel([e]), Lost([e])), Lost([e]), e.to);
  }

  /** Chained deltas and what was lost add up to the way from the first position to the last. */
  lemma {:induction false} TravelAndLost(r: seq<Reported>)
    requires r != [] && Chained(r)
    ensures IsWay(Plus(Travel(r), Lost(r)), r[0].to, LastTo(r))
    decreases |r|
  {
    var init, e := r[..|r| - 1], r[|r| - 1];
    assert r == init + [e];
    hide Chained, Travel, Lost, Delta, Unsaid, Plus, IsWay, LastTo;
    Snoc(init, e);
    if init == [] {
      FirstReport(e);
    } else {
      TravelAndLost(init);
      DeltaAndUnsaid(LastTo(init), e.to);
      WayGrows(Travel(init), Lost(init), e.delta, Unsaid(LastTo(init), e.to), r[0].to, LastTo(init), e.to);
    }
  }

  /** The deltas, and what is lost after positions that look like none, add up. */
  ghost predicate AddsUp(r: Posted) {
    var reports := Reports(r.events);
    reports != [] ==> IsWay(Plus(Travel(reports), Lost(reports)), reports[0].to, r.memory.lastPos)
  }

  /** The deltas alone add up. */
  ghost predicate AddsUpFully(r: Posted) {
    var reports := Reports(r.events);
    reports != [] ==> IsWay(Travel(reports), reports[0].to, r.memory.lastPos)
  }

  /** No report comes from a position that looks like none. */
  predicate Sighted(r: seq<Reported>) {
    forall i :: 0 <= i < |r| ==> r[i].to.x != SHRT_MIN
  }

  /** Relative motion telescopes: over every run, the posted deltas and what is lost after
      positions that look like none add up to the last reported position minus the first,
      also when one call reports twice. Nothing is lost when no report has such a position. */
  lemma {:induction false} MotionTelescopes(ticks: seq<Tick>)
    ensures AddsUp(Play(ticks))
    ensures Sighted(Reports(Play(ticks).events)) ==> AddsUpFully(Play(ticks))
  {
    var r := Reports(Play(ticks).events);
    ReportsChain(ticks);
    if r != [] {
      TravelAndLost(r);
      if Sighted(r) {
        NothingLost(r);
        NothingAdded(Travel(r), Lost(r), r[0].to, LastTo(r));
      }
    }
    hide Play, Reports, Travel, Lost, IsWay, Chained, Plus;
  }

  lemma {:induction false} NothingAdded(d: Point, none: Point, from: Point, to: Point)
    requires IsZero(none) && IsWay(Plus(d, none), from, to)
    ensures IsWay(d, from, to)
  {
    hide Plus;
    PlusParts(d, none);
  }

  lemma {:induction false} NothingLost(r: seq<Reported>)
    requires Sighted(r)
    ensures IsZero(Lost(r))
    decreases |r|
  {
    if r != [] {
      var init := r[..|r| - 1];
      NothingLost(init);
      if init != [] {
        assert init[|init| - 1].to.x != SHRT_MIN;
        ZeroSum(Lost(init), Unsaid(LastTo(init), r[|r| - 1].to), LastTo(init));
        hide Plus;
      }
    }
  }

  /** At every report so far the deltas added up to the way from the first one. */
  predicate Complete(r: seq<Reported>) {
    r != [] ==> Complete(r[..|r| - 1]) && IsWay(Travel(r), r[0].to, LastTo(r))
  }

  /** No report goes on from a position that looks like none to another one. */
  predicate NeverLost(r: seq<Reported>) {
    r != [] ==>
      var init := r[..|r| - 1];
      NeverLost(init) && (init != [] && LastTo(init).x == SHRT_MIN ==> r[|r| - 1].to == LastTo(init))
  }

  lemma {:induction false} CompleteSnoc(r: seq<Reported>, e: Reported)
    ensures Complete(r + [e]) <==>
            Complete(r) && IsWay(Travel(r + [e]), if r == [] then e.to else r[0].to, e.to)
    ensures NeverLost(r + [e]) <==> NeverLost(r) && (r != [] && LastTo(r).x == SHRT_MIN ==> e.to == LastTo(r))
  {
    assert (r + [e])[..|r|] == r && (r + [e])[|r|] == e;
    hide Travel;
  }

  lemma {:induction false} CompleteNow(r: seq<Reported>)
    requires r != [] && Complete(r)
    ensures IsWay(Travel(r), r[0].to, LastTo(r))
  {
  }

  lemma {:induction false} CompleteUnlessLost(r: seq<Reported>)
    requires Chained(r)
    ensures Complete(r) <==> NeverLost(r)
    decreases |r|
  {
    if r != [] {
      var init, e := r[..|r| - 1], r[|r| - 1];
      assert r == init + [e];
      hide Chained, Travel, Lost, Delta, Unsaid, Complete, NeverLost, LastTo, Plus, IsWay;
      Snoc(init, e);
      CompleteUnlessLost(init);
      CompleteSnoc(init, e);
      if init == [] {
        FirstReport(e);
      } else {
        DeltaIsWay(LastTo(init), e.to);
        if Complete(init) {
          CompleteNow(init);
          SameWay(Travel(init), e.delta, r[0].to, LastTo(init), e.to);
        }
      }
    }
  }

  /** A call that says where the pointer is. */
  predicate Reporting(mem: Memory, t: Tick) {
    Crossing(mem, t.pen, t.mapping, t.to) != [] || Drift(mem, t.pen, t.mapping, t.to) != []
  }

  /** Some call of the run has said so. */
  predicate HasReported(ticks: seq<Tick>) {
    ticks != [] &&
    var init := ticks[..|ticks| - 1];
    HasReported(init) || Reporting(Play(init).memory, ticks[|ticks| - 1])
  }

  /** No call of the run reports another position when the one remembered from an earlier
      report looks like none. */
  predicate KeepsMotion(ticks: seq<Tick>) {
    ticks != [] ==>
      var init, t := ticks[..|ticks| - 1], ticks[|ticks| - 1];
      var mem := Play(init).memory;
      && KeepsMotion(init)
      && (HasReported(init) && mem.lastPos.x == SHRT_MIN && Reporting(mem, t) ==> t.to == mem.lastPos)
  }

  /** The reports of one call: none, or one or two of the same position. */
  predicate AllTo(r: seq<Reported>, to: Point) {
    |r| <= 2 && forall i :: 0 <= i < |r| ==> r[i].to == to
  }

  lemma {:induction false} PostReportsTo(mem: Memory, t: Tick)
    ensures var r := Reports(Post(mem, t.pen, t.mapping, t.to).events);
      AllTo(r, t.to) && (r != [] <==> Reporting(mem, t))
  {
    PostReports(mem, t);
    hide Post, Reports, Crossing, Drift, Delta, PosAfterCrossing;
  }

  lemma {:induction false} NeverLostSnoc(r: seq<Reported>, e: Reported)
    ensures NeverLost(r + [e]) <==> NeverLost(r) && (r != [] && LastTo(r).x == SHRT_MIN ==> e.to == LastTo(r))
    ensures LastTo(r + [e]) == e.to
  {
    assert (r + [e])[..|r|] == r && (r + [e])[|r|] == e;
  }

  lemma {:induction false} NeverLostGrows(r: seq<Reported>, more: seq<Reported>, to: Point)
    requires AllTo(more, to)
    ensures NeverLost(r + more)
            <==> NeverLost(r) && (r != [] && more != [] && LastTo(r).x == SHRT_MIN ==> to == LastTo(r))
  {
    hide NeverLost, LastTo;
    if more == [] {
      assert r + more == r;
    } else {
      NeverLostSnoc(r, more[0]);
      if |more| == 1 {
        assert more == [more[0]];
      } else {
        assert r + more == (r + [more[0]]) + [more[1]];
        NeverLostSnoc(r + [more[0]], more[1]);
      }
    }
  }

  lemma {:induction false} KeepsMotionNext(ticks: seq<Tick>)
    requires ticks != []
    ensures var init, t := ticks[..|ticks| - 1], ticks[|ticks| - 1];
      var mem := Play(init).memory;
      && (KeepsMotion(ticks) <==>
            && KeepsMotion(init)
            && (HasReported(init) && mem.lastPos.x == SHRT_MIN && Reporting(mem, t) ==> t.to == mem.lastPos))
      && (HasReported(ticks) <==> HasReported(init) || Reporting(mem, t))
  {
    hide Play, Reporting;
  }

  /** What one more call does to the reports. */
  lemma {:induction false} ReportsNext(ticks: seq<Tick>)
    requires ticks != []
    ensures var before, t := Play(ticks[..|ticks| - 1]), ticks[|ticks| - 1];
      Reports(Play(ticks).events)
      == Reports(before.events) + Reports(Post(before.memory, t.pen, t.mapping, t.to).events)
  {
    hide Play, Post, Reports;
    var before, t := Play(ticks[..|ticks| - 1]), ticks[|ticks| - 1];
    PlayNext(ticks, |ticks| - 1);
    assert ticks[..|ticks| - 1 + 1] == ticks;
    ReportsConcat(before.events, Post(before.memory, t.pen, t.mapping, t.to).events);
  }

  lemma {:induction false} LostOnTicks(ticks: seq<Tick>)
    ensures NeverLost(Reports(Play(ticks).events)) <==> KeepsMotion(ticks)
    ensures Reports(Play(ticks).events) != [] <==> HasReported(ticks)
    decreases |ticks|
  {
    hide Play, Post, Reports, NeverLost, LastTo, Chained, Reporting, AllTo;
    if ticks == [] {
      NothingReported();
      NothingYetLost();
    } else {
      hide KeepsMotion, HasReported;
      var init, t := ticks[..|ticks| - 1], ticks[|ticks| - 1];
      var before := Play(init);
      LostOnTicks(init);
      ReportsChain(init);
      KeepsMotionNext(ticks);
      ReportsNext(ticks);
      PostReportsTo(before.memory, t);
      NeverLostGrows(Reports(before.events), Reports(Post(before.memory, t.pen, t.mapping, t.to).events), t.to);
    }
  }

  lemma {:induction false} NothingYetLost()
    ensures NeverLost([]) && Play([]).events == []
  {
  }

  /** The deltas of a run add up at every report, if and only if no call reports another
      position than a remembered one with the value that stands for none. */
  lemma {:induction false} SentinelLosesMotion(ticks: seq<Tick>)
    ensures Complete(Reports(Play(ticks).events)) <==> KeepsMotion(ticks)
  {
    ReportsChain(ticks);
    CompleteUnlessLost(Reports(Play(ticks).events));
    LostOnTicks(ticks);
    hide *;
  }

  /** A run that loses motion: the pen arrives where the pointer gets the value that stands
      for none, and moves on. */
  lemma {:induction false} MotionIsLost(first: Tick, second: Tick)
    requires !first.pen.offTablet && !second.pen.offTablet && first.pen.x != second.pen.x
    requires first.pen.buttons == second.pen.buttons == RELEASED
    requires first.to.x == SHRT_MIN && second.to != first.to
    ensures !Complete(Reports(Play([first, second]).events))
  {
    var ticks := [first, second];
    assert ticks[..1] == [first] && [first][..0] == [];
    FirstArrives(first);
    SecondMoves(first, second);
    SentinelLosesMotion(ticks);
    hide Play, Complete, Reports, Reporting;
  }

  lemma {:induction false} FirstArrives(first: Tick)
    requires !first.pen.offTablet && first.pen.buttons == RELEASED
    ensures HasReported([first])
    ensures var mem := Play([first]).memory;
      mem.lastPos == first.to && mem.system == NONE && !mem.offTablet && mem.x == first.pen.x && !mem.drag
  {
    assert [first][..0] == [] && Play([]) == Posted(FRESH, []);
    PlayNext([first], 0);
    assert [first][..1] == [first];
    hide Play;
  }

  lemma {:induction false} SecondMoves(first: Tick, second: Tick)
    requires var mem := Play([first]).memory;
      mem.system == NONE && !mem.drag && mem.x == first.pen.x
    requires second.pen.buttons == RELEASED && first.pen.x != second.pen.x
    ensures Reporting(Play([first]).memory, second)
  {
    assert SystemOf(second.mapping, RELEASED) == NONE;
    assert Presses(NONE, NONE, false) == [];
    hide Play;
  }
}
