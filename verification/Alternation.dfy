/** Strict alternation of downs and ups, of entering and leaving, and of grabbing. */
module Alternation {
  import opened Stylus
  import opened Events
  import opened EventRuns

  // ---- the buttons with a counterpart of their own, and proximity ----

  /** The state a channel reports. */
  predicate Watched(c: Channel, mem: Memory) {
    match c
    case LeftButton => false
    case RightButton => mem.system.button2
    case OtherButtonOf(n) =>
      if n == 2 then mem.system.button3 else if n == 3 then mem.system.button4 else n == 4 && mem.system.button5
    case Nearness => !mem.offTablet
  }

  function Change(was: bool, isNow: bool): (s: seq<bool>) {
    if was == isNow then [] else [isNow]
  }

  lemma {:induction false} LeftOnly(c: Channel, events: seq<Event>)
    requires c != LeftButton && forall i :: 0 <= i < |events| ==> events[i].Left?
    ensures Signal(c, events) == []
  {
    if events != [] {
      LeftOnly(c, events[..|events| - 1]);
      assert events[|events| - 1].Left?;
    }
  }

  lemma {:induction false} SignalThree(c: Channel, x: seq<Event>, y: seq<Event>, z: seq<Event>)
    ensures Signal(c, x + y + z) == Signal(c, x) + Signal(c, y) + Signal(c, z)
  {
    SignalConcat(c, x + y, z);
    SignalConcat(c, x, y);
  }

  lemma {:induction false} SignalSix(c: Channel, x: seq<Event>, y: seq<Event>, z: seq<Event>, u: seq<Event>,
                                     v: seq<Event>, w: seq<Event>)
    ensures Signal(c, x + y + z + u + v + w)
            == Signal(c, x) + Signal(c, y) + Signal(c, z) + Signal(c, u) + Signal(c, v) + Signal(c, w)
  {
    SignalThree(c, x, y, z);
    SignalThree(c, x + y + z, u, v);
    SignalConcat(c, x + y + z + u + v, w);
  }

  lemma {:induction false} ClicksAreLeft(c: Channel, was: System, now: System)
    requires c != LeftButton
    ensures Signal(c, DoubleClick(was, now)) == [] && Signal(c, SingleClick(was, now)) == []
  {
    hide Signal;
    LeftOnly(c, DoubleClick(was, now));
    LeftOnly(c, SingleClick(was, now));
  }

  lemma {:induction false} LeftParts(c: Channel, was: System, now: System, drag: bool)
    requires c != LeftButton
    ensures Signal(c, DoubleClick(was, now)) == [] && Signal(c, SingleClick(was, now)) == []
    ensures Signal(c, GrabOrDrop(was, now, drag)) == [] && Signal(c, Button1(was, now, drag)) == []
    ensures Signal(c, EraserTip(was, now)) == []
  {
    hide Signal, Released, Toggled, DragAfter;
    ClicksAreLeft(c, was, now);
    hide DoubleClick, SingleClick;
    LeftOnly(c, GrabOrDrop(was, now, drag));
    LeftOnly(c, Button1(was, now, drag));
    LeftOnly(c, EraserTip(was, now));
  }

  lemma {:induction false} PressesSignal(c: Channel, was: System, now: System, drag: bool)
    requires c != LeftButton
    ensures Signal(c, Presses(was, now, drag))
            == if c == RightButton then Change(was.button2, now.button2) else []
  {
    var b2 := Button2(was, now);
    LeftParts(c, was, now, drag);
    SignalOne(c, Right(now.button2));
    assert Signal(c, b2) == if c == RightButton then Change(was.button2, now.button2) else [];
    hide Signal, DoubleClick, SingleClick, GrabOrDrop, Button1, Button2, EraserTip, Change;
    SignalSix(c, DoubleClick(was, now), SingleClick(was, now), GrabOrDrop(was, now, drag),
              Button1(was, now, drag), b2, EraserTip(was, now));
  }

  lemma {:induction false} OtherSignal(n: nat, button: nat, was: bool, isNow: bool)
    ensures Signal(OtherButtonOf(n), OtherButton(button, was, isNow)) == if n == button then Change(was, isNow) else []
  {
    SignalOne(OtherButtonOf(n), Other(button, isNow));
  }

  lemma {:induction false} ThreeOthers(n: nat, x: seq<Event>, y: seq<Event>, z: seq<Event>,
                    x2: seq<bool>, y3: seq<bool>, z4: seq<bool>)
    requires Signal(OtherButtonOf(n), x) == (if n == 2 then x2 else [])
    requires Signal(OtherButtonOf(n), y) == (if n == 3 then y3 else [])
    requires Signal(OtherButtonOf(n), z) == (if n == 4 then z4 else [])
    ensures Signal(OtherButtonOf(n), x + y + z)
            == if n == 2 then x2 else if n == 3 then y3 else if n == 4 then z4 else []
  {
    SignalThree(OtherButtonOf(n), x, y, z);
    hide Signal;
  }

  lemma {:induction false} OthersSignal(n: nat, was: System, now: System)
    ensures Signal(OtherButtonOf(n), Others(was, now))
            == if n == 2 then Change(was.button3, now.button3)
               else if n == 3 then Change(was.button4, now.button4)
               else if n == 4 then Change(was.button5, now.button5) else []
  {
    hide Signal, OtherButton, Change;
    OtherSignal(n, 2, was.button3, now.button3);
    OtherSignal(n, 3, was.button4, now.button4);
    OtherSignal(n, 4, was.button5, now.button5);
    ThreeOthers(n, OtherButton(2, was.button3, now.button3),
                OtherButton(3, was.button4, now.button4), OtherButton(4, was.button5, now.button5),
                Change(was.button3, now.button3), Change(was.button4, now.button4), Change(was.button5, now.button5));
  }

  lemma {:induction false} EdgesSignal(c: Channel, mem: Memory, pen: Pen, m: Mapping, to: Point)
    ensures Signal(c, Drift(mem, pen, m, to)) == []
    ensures Signal(c, Crossing(mem, pen, m, to))
            == if c == Nearness then Change(!mem.offTablet, !pen.offTablet) else []
  {
    hide MotionKind, Delta, PointerAfter, Presses, PosAfterCrossing, SystemOf;
    assert Signal(c, []) == [];
    if Drift(mem, pen, m, to) != [] {
      SignalOne(c, Drift(mem, pen, m, to)[0]);
    }
    if mem.offTablet != pen.offTablet {
      SignalOne(c, Crossing(mem, pen, m, to)[0]);
    }
  }

  lemma {:induction false} PostSignal(c: Channel, mem: Memory, t: Tick)
    ensures var r := Post(mem, t.pen, t.mapping, t.to); var now := SystemOf(t.mapping, t.pen.buttons);
      Signal(c, r.events) == Signal(c, Crossing(mem, t.pen, t.mapping, t.to))
                             + Signal(c, Presses(mem.system, now, mem.drag))
                             + Signal(c, Others(mem.system, now))
  {
    hide Signal, Crossing, Presses, Others, Drift, SystemOf;
    var now := SystemOf(t.mapping, t.pen.buttons);
    var e0, e1 := Crossing(mem, t.pen, t.mapping, t.to), Presses(mem.system, now, mem.drag);
    var e2, e3 := Others(mem.system, now), Drift(mem, t.pen, t.mapping, t.to);
    SignalConcat(c, e0 + e1 + e2, e3);
    SignalConcat(c, e0 + e1, e2);
    SignalConcat(c, e0, e1);
    EdgesSignal(c, mem, t.pen, t.mapping, t.to);
  }

  lemma {:induction false} PostChangesNearness(mem: Memory, t: Tick)
    ensures var r := Post(mem, t.pen, t.mapping, t.to);
      Signal(Nearness, r.events) == Change(!mem.offTablet, !t.pen.offTablet)
  {
    hide Signal, Crossing, Drift, Presses, Others, SystemOf, Change;
    var now := SystemOf(t.mapping, t.pen.buttons);
    PostSignal(Nearness, mem, t);
    EdgesSignal(Nearness, mem, t.pen, t.mapping, t.to);
    PressesSignal(Nearness, mem.system, now, mem.drag);
    OthersAreSilent(Nearness, mem.system, now);
  }

  lemma {:induction false} PostChangesRight(mem: Memory, t: Tick)
    ensures var r := Post(mem, t.pen, t.mapping, t.to);
      Signal(RightButton, r.events) == Change(mem.system.button2, r.memory.system.button2)
  {
    hide Signal, Crossing, Drift, Presses, Others, SystemOf, Change;
    var now := SystemOf(t.mapping, t.pen.buttons);
    PostSignal(RightButton, mem, t);
    EdgesSignal(RightButton, mem, t.pen, t.mapping, t.to);
    PressesSignal(RightButton, mem.system, now, mem.drag);
    OthersAreSilent(RightButton, mem.system, now);
  }

  lemma {:induction false} PostChangesOther(n: nat, mem: Memory, t: Tick)
    ensures Signal(OtherButtonOf(n), Post(mem, t.pen, t.mapping, t.to).events)
            == Signal(OtherButtonOf(n), Others(mem.system, SystemOf(t.mapping, t.pen.buttons)))
  {
    hide Signal, Crossing, Drift, Presses, Others, SystemOf, Change;
    var now := SystemOf(t.mapping, t.pen.buttons);
    PostSignal(OtherButtonOf(n), mem, t);
    EdgesSignal(OtherButtonOf(n), mem, t.pen, t.mapping, t.to);
    PressesSignal(OtherButtonOf(n), mem.system, now, mem.drag);
  }

  lemma {:induction false} PostChanges(c: Channel, mem: Memory, t: Tick)
    requires c != LeftButton
    ensures var r := Post(mem, t.pen, t.mapping, t.to);
      Signal(c, r.events) == Change(Watched(c, mem), Watched(c, r.memory))
  {
    match c
    case Nearness => PostChangesNearness(mem, t);
    case RightButton => PostChangesRight(mem, t);
    case OtherButtonOf(n) =>
      PostChangesOther(n, mem, t);
      OthersSignal(n, mem.system, SystemOf(t.mapping, t.pen.buttons));
  }

  lemma {:induction false} ChangeAlternates(was: bool, isNow: bool)
    ensures Alternates(was, Change(was, isNow)) && Level(was, Change(was, isNow)) == isNow
  {
  }

  /** Over every run: downs and ups of the right button and of buttons 3 to 5 strictly
      alternate, enters and leaves strictly alternate starting with an enter, and each
      ends where the state says. */
  lemma {:induction false} ChannelsAlternate(c: Channel, ticks: seq<Tick>)
    requires c != LeftButton
    ensures var s := Signal(c, Play(ticks).events);
      Alternates(false, s) && Level(false, s) == Watched(c, Play(ticks).memory)
    decreases |ticks|
  {
    if ticks != [] {
      var k := |ticks| - 1;
      var before := Play(ticks[..k]);
      var last := Post(before.memory, ticks[k].pen, ticks[k].mapping, ticks[k].to);
      ChannelsAlternate(c, ticks[..k]);
      PostChanges(c, before.memory, ticks[k]);
      ChangeAlternates(Watched(c, before.memory), Watched(c, last.memory));
      SignalConcat(c, before.events, last.events);
      AlternatesConcat(false, Signal(c, before.events), Signal(c, last.events));
    }
  }

  /** Every button that was pressed has been released. */
  ghost predicate AllUp(events: seq<Event>) {
    && Count(0, Signal(LeftButton, events)) == 0
    && forall c: Channel :: c.RightButton? || c.OtherButtonOf? ==> !Level(false, Signal(c, events))
  }

  /** Every channel but the left button strictly alternates, and ends where the state says. */
  ghost predicate Channelled(r: Posted) {
    forall c: Channel :: c != LeftButton ==>
      Alternates(false, Signal(c, r.events)) && Level(false, Signal(c, r.events)) == Watched(c, r.memory)
  }

  lemma {:induction false} RunIsChannelled(ticks: seq<Tick>)
    ensures Channelled(Play(ticks))
  {
    forall c: Channel | c != LeftButton
      ensures Alternates(false, Signal(c, Play(ticks).events))
      ensures Level(false, Signal(c, Play(ticks).events)) == Watched(c, Play(ticks).memory)
    {
      ChannelsAlternate(c, ticks);
      hide *;
    }
    hide Alternates, Signal, Level, Watched, Play;
  }

  /** After a call with nothing pressed, such as a disengaging packet or a panic reset
      brings about, every button that was down has been released. */
  lemma {:induction false} ReleaseEndsAll(ticks: seq<Tick>)
    requires ticks != [] && ticks[|ticks| - 1].pen.buttons == RELEASED
    requires NeverGrabs(ticks)
    ensures AllUp(Play(ticks).events)
  {
    LeftButtonBalances(ticks);
    assert Play(ticks).memory.system == NONE;
    forall c: Channel | c.RightButton? || c.OtherButtonOf?
      ensures !Level(false, Signal(c, Play(ticks).events))
    {
      ChannelsAlternate(c, ticks);
    }
  }

  ghost predicate Moveless(events: seq<Event>) {
    forall i :: 0 <= i < |events| ==> !events[i].Move?
  }

  lemma {:induction false} MovelessThree(a: seq<Event>, b: seq<Event>, c: seq<Event>)
    requires Moveless(a) && Moveless(b) && Moveless(c)
    ensures Moveless(a + b + c)
  {
  }

  lemma {:induction false} MovelessClicks(was: System, now: System)
    ensures Moveless(DoubleClick(was, now)) && Moveless(SingleClick(was, now))
  {
  }

  lemma {:induction false} MovelessGrabs(was: System, now: System, drag: bool)
    ensures Moveless(GrabOrDrop(was, now, drag)) && Moveless(Button1(was, now, drag))
  {
    hide Released, Toggled, DragAfter;
  }

  lemma {:induction false} MovelessPlain(was: System, now: System)
    ensures Moveless(Button2(was, now)) && Moveless(EraserTip(was, now))
  {
  }

  lemma {:induction false} MovelessOther(button: nat, was: bool, isNow: bool)
    ensures Moveless(OtherButton(button, was, isNow))
  {
  }

  lemma {:induction false} OnlyDriftMoves(mem: Memory, t: Tick)
    ensures var now := SystemOf(t.mapping, t.pen.buttons);
      Moveless(Crossing(mem, t.pen, t.mapping, t.to) + Presses(mem.system, now, mem.drag) + Others(mem.system, now))
  {
    var was, now, drag := mem.system, SystemOf(t.mapping, t.pen.buttons), mem.drag;
    assert Moveless(Crossing(mem, t.pen, t.mapping, t.to));
    MovelessClicks(was, now);
    MovelessGrabs(was, now, drag);
    MovelessPlain(was, now);
    MovelessOther(2, was.button3, now.button3);
    MovelessOther(3, was.button4, now.button4);
    MovelessOther(4, was.button5, now.button5);
    hide Moveless, Crossing, DoubleClick, SingleClick, GrabOrDrop, Button1, Button2, EraserTip, OtherButton, SystemOf;
    MovelessThree(DoubleClick(was, now), SingleClick(was, now), GrabOrDrop(was, now, drag));
    MovelessThree(DoubleClick(was, now) + SingleClick(was, now) + GrabOrDrop(was, now, drag),
                  Button1(was, now, drag), Button2(was, now));
    MovelessTwo(DoubleClick(was, now) + SingleClick(was, now) + GrabOrDrop(was, now, drag)
                + Button1(was, now, drag) + Button2(was, now), EraserTip(was, now));
    MovelessThree(OtherButton(2, was.button3, now.button3), OtherButton(3, was.button4, now.button4),
                  OtherButton(4, was.button5, now.button5));
    MovelessThree(Crossing(mem, t.pen, t.mapping, t.to), Presses(was, now, drag), Others(was, now));
  }

  lemma {:induction false} MovelessTwo(a: seq<Event>, b: seq<Event>)
    requires Moveless(a) && Moveless(b)
    ensures Moveless(a + b)
  {
  }

  /** Every plain move of a run tells the buttons: it is a left drag exactly when the left
      button has been pressed more often than released so far, and a right drag exactly
      when the left button is up and the right one down. */
  lemma {:induction false} MovesTellButtons(ticks: seq<Tick>, i: nat)
    requires NeverGrabs(ticks)
    requires i < |Play(ticks).events| && Play(ticks).events[i].Move?
    ensures var e, soFar := Play(ticks).events[i], Play(ticks).events[..i];
      var left, right := Count(0, Signal(LeftButton, soFar)), Level(false, Signal(RightButton, soFar));
      (e.motion.LeftDragged? <==> left > 0) && (e.motion.RightDragged? <==> left == 0 && right)
    decreases |ticks|
  {
    var k := |ticks| - 1;
    var before := Play(ticks[..k]).events;
    if i < |before| {
      PlayGrows(ticks, i);
      MovesTellButtons(ticks[..k], i);
      hide *;
    } else {
      LastMoveTells(ticks, i);
      hide *;
    }
  }

  lemma {:induction false} PlayGrows(ticks: seq<Tick>, i: nat)
    requires ticks != [] && i < |Play(ticks[..|ticks| - 1]).events|
    ensures i < |Play(ticks).events|
    ensures Play(ticks).events[i] == Play(ticks[..|ticks| - 1]).events[i]
    ensures Play(ticks).events[..i] == Play(ticks[..|ticks| - 1]).events[..i]
  {
    hide Post;
  }

  lemma {:induction false} LastMoveTells(ticks: seq<Tick>, i: nat)
    requires ticks != [] && NeverGrabs(ticks)
    requires i < |Play(ticks).events| && Play(ticks).events[i].Move?
    requires |Play(ticks[..|ticks| - 1]).events| <= i
    ensures var e, soFar := Play(ticks).events[i], Play(ticks).events[..i];
      var left, right := Count(0, Signal(LeftButton, soFar)), Level(false, Signal(RightButton, soFar));
      (e.motion.LeftDragged? <==> left > 0) && (e.motion.RightDragged? <==> left == 0 && right)
  {
    var events := Play(ticks).events;
    MoveIsLast(ticks, i);
    LeftButtonBalances(ticks[..|ticks| - 1]);
    LeftButtonBalances(ticks);
    ChannelsAlternate(RightButton, ticks);
    SilentLast(LeftButton, events);
    SilentLast(RightButton, events);
    hide Play, Post, Signal, Level, Count, Alternates, NeverNegative;
  }

  lemma {:induction false} SilentLast(c: Channel, events: seq<Event>)
    requires events != [] && events[|events| - 1].Move?
    ensures Signal(c, events) == Signal(c, events[..|events| - 1])
  {
  }

  lemma {:induction false} MoveIsLast(ticks: seq<Tick>, i: nat)
    requires ticks != [] && i < |Play(ticks).events| && Play(ticks).events[i].Move?
    requires |Play(ticks[..|ticks| - 1]).events| <= i
    ensures i == |Play(ticks).events| - 1
    ensures Play(ticks).events[i].motion
            == MotionKind(Play(ticks[..|ticks| - 1]).memory.drag, Play(ticks).memory.system)
  {
    var before, t := Play(ticks[..|ticks| - 1]), ticks[|ticks| - 1];
    var mem, now := before.memory, SystemOf(t.mapping, t.pen.buttons);
    var early := Crossing(mem, t.pen, t.mapping, t.to) + Presses(mem.system, now, mem.drag) + Others(mem.system, now);
    var drift := Drift(mem, t.pen, t.mapping, t.to);
    OnlyDriftMoves(mem, t);
    assert |drift| <= 1 && (drift != [] ==> drift[0].motion == MotionKind(mem.drag, now));
    hide Crossing, Presses, Others, Drift, SystemOf, MotionKind;
    assert Play(ticks).events == before.events + (early + drift);
  }

  // ---- grab and drop ----

  /** Only button 1 and grab-or-drop drive the left button. */
  predicate GrabsOnly(m: Mapping) {
    !m.Uses(ERASER) && !m.Uses(DOUBLE_CLICK) && !m.Uses(SINGLE_CLICK)
  }

  predicate Simple(s: System) {
    !s.eraser && !s.doubleClick && !s.singleClick
  }

  /** Letting go of grab-or-drop is harmless unless it coincides with a change of button 1,
      except that dropping while button 1 goes down is fine, or drops while button 1 is held. */
  predicate Clean(was: System, now: System, drag: bool) {
    Released(was, now) ==> if now.button1 then was.button1 != drag else !was.button1
  }

  predicate LeftIsDown(mem: Memory) {
    mem.system.button1 || mem.drag
  }

  function GrabSignal(was: System, now: System, drag: bool): (s: seq<bool>) {
    var d := Toggled(was, now, drag);
    Part(Released(was, now) && (!d || !now.button1), d)
    + Part(was.button1 != now.button1 && !DragAfter(was, now, drag), now.button1)
  }

  function Part(present: bool, down: bool): (s: seq<bool>) {
    if present then [down] else []
  }

  lemma {:induction false} LeftSignalIsGrabs(was: System, now: System, drag: bool)
    requires Simple(was) && Simple(now)
    ensures Signal(LeftButton, Presses(was, now, drag)) == GrabSignal(was, now, drag)
  {
    var g, b1, b2 := GrabOrDrop(was, now, drag), Button1(was, now, drag), Button2(was, now);
    SimplePresses(was, now, drag);
    SignalThree(LeftButton, g, b1, b2);
    PartSignals(was, now, drag);
    hide Signal, Presses, GrabOrDrop, Button1, Button2, Released, Toggled, DragAfter;
  }

  lemma {:induction false} SimplePresses(was: System, now: System, drag: bool)
    requires Simple(was) && Simple(now)
    ensures Presses(was, now, drag) == GrabOrDrop(was, now, drag) + Button1(was, now, drag) + Button2(was, now)
  {
    var g, b1, b2 := GrabOrDrop(was, now, drag), Button1(was, now, drag), Button2(was, now);
    hide GrabOrDrop, Button1, Button2;
    assert DoubleClick(was, now) + SingleClick(was, now) + g == g;
    assert EraserTip(was, now) == [];
    assert g + b1 + b2 + [] == g + b1 + b2;
  }

  lemma {:induction false} PartSignals(was: System, now: System, drag: bool)
    ensures Signal(LeftButton, GrabOrDrop(was, now, drag))
            == Part(Released(was, now) && (!Toggled(was, now, drag) || !now.button1), Toggled(was, now, drag))
    ensures Signal(LeftButton, Button1(was, now, drag))
            == Part(was.button1 != now.button1 && !DragAfter(was, now, drag), now.button1)
    ensures Signal(LeftButton, Button2(was, now)) == []
  {
    assert Signal(LeftButton, []) == [];
    SignalOne(LeftButton, Left(Toggled(was, now, drag), 1));
    SignalOne(LeftButton, Left(now.button1, 1));
    SignalOne(LeftButton, Right(now.button2));
    hide Signal, Released, Toggled, DragAfter;
  }

  /** Two optional events after each other. */
  lemma {:induction false} PartsAlternate(level: bool, p: bool, a: bool, q: bool, b: bool)
    ensures var s := Part(p, a) + Part(q, b); var middle := if p then a else level;
      && (Alternates(level, s) <==> (p ==> a != level) && (q ==> b != middle))
      && Level(level, s) == if q then b else middle
  {
    AlternatesConcat(level, Part(p, a), Part(q, b));
    PartAlternates(level, p, a);
    PartAlternates(if p then a else level, q, b);
    hide Alternates, Level, Part;
  }

  lemma {:induction false} PartAlternates(level: bool, p: bool, a: bool)
    ensures Alternates(level, Part(p, a)) <==> p ==> a != level
    ensures Level(level, Part(p, a)) == if p then a else level
  {
    assert [a][..0] == [];
  }

  lemma {:induction false} GrabStep(was: System, now: System, drag: bool)
    ensures var l, s := was.button1 || drag, GrabSignal(was, now, drag);
      Alternates(l, s) && Level(l, s) == (now.button1 || DragAfter(was, now, drag)) <==> Clean(was, now, drag)
  {
    var d := Toggled(was, now, drag);
    PartsAlternate(was.button1 || drag, Released(was, now) && (!d || !now.button1), d,
                   was.button1 != now.button1 && !DragAfter(was, now, drag), now.button1);
    hide Alternates, Level, Part;
  }

  lemma {:induction false} PostGrabs(mem: Memory, t: Tick)
    requires Simple(mem.system) && GrabsOnly(t.mapping)
    ensures var r := Post(mem, t.pen, t.mapping, t.to);
      var now := SystemOf(t.mapping, t.pen.buttons);
      && Simple(now)
      && Signal(LeftButton, r.events) == GrabSignal(mem.system, now, mem.drag)
  {
    var now := SystemOf(t.mapping, t.pen.buttons);
    PostSignal(LeftButton, mem, t);
    EdgesSignal(LeftButton, mem, t.pen, t.mapping, t.to);
    OthersAreSilent(LeftButton, mem.system, now);
    LeftSignalIsGrabs(mem.system, now, mem.drag);
  }

  /** So far the left events alternate and the left button is where the state says. */
  ghost predicate Faithful(ticks: seq<Tick>) {
    var s := Signal(LeftButton, Play(ticks).events);
    Alternates(false, s) && Level(false, s) == LeftIsDown(Play(ticks).memory)
  }

  predicate CleanTick(ticks: seq<Tick>, k: nat)
    requires k < |ticks|
  {
    var mem := Play(ticks[..k]).memory;
    Clean(mem.system, SystemOf(ticks[k].mapping, ticks[k].pen.buttons), mem.drag)
  }

  lemma {:induction false} StaysSimple(ticks: seq<Tick>)
    requires forall i :: 0 <= i < |ticks| ==> GrabsOnly(ticks[i].mapping)
    ensures Simple(Play(ticks).memory.system)
  {
    if ticks != [] {
      assert GrabsOnly(ticks[|ticks| - 1].mapping);
    }
  }

  lemma {:induction false} FaithfulStep(ticks: seq<Tick>, k: nat)
    requires k < |ticks| && forall i :: 0 <= i < |ticks| ==> GrabsOnly(ticks[i].mapping)
    requires Faithful(ticks[..k])
    ensures Faithful(ticks[..k + 1]) <==> CleanTick(ticks, k)
  {
    var before, t := Play(ticks[..k]), ticks[k];
    var now := SystemOf(t.mapping, t.pen.buttons);
    var last := Post(before.memory, t.pen, t.mapping, t.to);
    StaysSimple(ticks[..k]);
    PlayNext(ticks, k);
    PostGrabs(before.memory, t);
    SignalConcat(LeftButton, before.events, last.events);
    AlternatesConcat(false, Signal(LeftButton, before.events), Signal(LeftButton, last.events));
    GrabStep(before.memory.system, now, before.memory.drag);
  }

  lemma {:induction false} CleanRunIsFaithful(ticks: seq<Tick>, n: nat)
    requires n <= |ticks| && forall i :: 0 <= i < |ticks| ==> GrabsOnly(ticks[i].mapping)
    requires forall k :: 0 <= k < n ==> CleanTick(ticks, k)
    ensures Faithful(ticks[..n])
    decreases n
  {
    if n == 0 {
      assert ticks[..0] == [];
    } else {
      CleanRunIsFaithful(ticks, n - 1);
      FaithfulStep(ticks, n - 1);
    }
  }

  /** The grab-and-drop machine: after every call of a run the left events alternate and
      the left button is down exactly when button 1 is held or a drag is on, if and only
      if every release of the grab button is clean. */
  lemma {:induction false} GrabMachine(ticks: seq<Tick>)
    requires forall i :: 0 <= i < |ticks| ==> GrabsOnly(ticks[i].mapping)
    ensures (forall n :: 0 <= n <= |ticks| ==> Faithful(ticks[..n]))
            <==> (forall k :: 0 <= k < |ticks| ==> CleanTick(ticks, k))
  {
    if forall k :: 0 <= k < |ticks| ==> CleanTick(ticks, k) {
      forall n | 0 <= n <= |ticks| ensures Faithful(ticks[..n]) {
        CleanRunIsFaithful(ticks, n);
      }
    }
    if forall n :: 0 <= n <= |ticks| ==> Faithful(ticks[..n]) {
      forall k | 0 <= k < |ticks| ensures CleanTick(ticks, k) {
        assert Faithful(ticks[..k]) && Faithful(ticks[..k + 1]);
        FaithfulStep(ticks, k);
      }
    }
  }
}
