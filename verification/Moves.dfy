/** When the generator says where the pointer is, and what it says about pointer and drag. */
module Moves {
  import opened Stylus
  import opened Events
  import opened EventRuns
  import opened Alternation
  import opened Clicks

  function LastPen(ticks: seq<Tick>): (pen: Pen) {
    if ticks == [] then AT_REST else ticks[|ticks| - 1].pen
  }

  lemma {:induction false} MemoryIsLastPen(ticks: seq<Tick>)
    ensures var mem, pen := Play(ticks).memory, LastPen(ticks);
      mem.x == pen.x && mem.y == pen.y && mem.offTablet == pen.offTablet
  {
    hide Crossing, Presses, Others, Drift, SystemOf;
  }

  /** What the last call of a run posts. */
  function NewEvents(ticks: seq<Tick>): (events: seq<Event>)
    requires ticks != []
  {
    LastCall(ticks).events
  }

  predicate IsClick(e: Event) {
    e.Left? || e.Right?
  }

  predicate AnyMove(events: seq<Event>) {
    exists i :: 0 <= i < |events| && events[i].Move?
  }

  predicate AnyClick(events: seq<Event>) {
    exists i :: 0 <= i < |events| && IsClick(events[i])
  }

  lemma {:induction false} AnyClickConcat(a: seq<Event>, b: seq<Event>)
    ensures AnyClick(a + b) <==> AnyClick(a) || AnyClick(b)
  {
    if i :| 0 <= i < |a| && IsClick(a[i]) {
      assert IsClick((a + b)[i]);
    }
    if i :| 0 <= i < |b| && IsClick(b[i]) {
      assert IsClick((a + b)[|a| + i]);
    }
  }

  ghost predicate OnlyClickEvents(events: seq<Event>) {
    forall i :: 0 <= i < |events| ==> IsClick(events[i])
  }

  lemma {:induction false} ClickEventsConcat(a: seq<Event>, b: seq<Event>)
    requires OnlyClickEvents(a) && OnlyClickEvents(b)
    ensures OnlyClickEvents(a + b)
  {
  }

  lemma {:induction false} BurstsAreClicks(was: System, now: System)
    ensures OnlyClickEvents(DoubleClick(was, now)) && OnlyClickEvents(SingleClick(was, now))
  {
  }

  lemma {:induction false} PressesAreClicks(was: System, now: System, drag: bool)
    ensures OnlyClickEvents(Presses(was, now, drag))
  {
    var d, s, g := DoubleClick(was, now), SingleClick(was, now), GrabOrDrop(was, now, drag);
    var b1, b2, e := Button1(was, now, drag), Button2(was, now), EraserTip(was, now);
    BurstsAreClicks(was, now);
    hide DoubleClick, SingleClick, Released, Toggled, DragAfter;
    assert OnlyClickEvents(g) && OnlyClickEvents(b1) && OnlyClickEvents(b2) && OnlyClickEvents(e);
    hide *;
    ClickEventsConcat(d, s);
    ClickEventsConcat(d + s, g);
    ClickEventsConcat(d + s + g, b1);
    ClickEventsConcat(d + s + g + b1, b2);
    ClickEventsConcat(d + s + g + b1 + b2, e);
    assert Presses(was, now, drag) == d + s + g + b1 + b2 + e by {
      PressesParts(was, now, drag);
    }
  }

  lemma {:induction false} PressesParts(was: System, now: System, drag: bool)
    ensures Presses(was, now, drag)
            == DoubleClick(was, now) + SingleClick(was, now) + GrabOrDrop(was, now, drag)
               + Button1(was, now, drag) + Button2(was, now) + EraserTip(was, now)
  {
  }

  /** A call posts a click event exactly when its presses are not empty. */
  lemma {:induction false} PostClicks(mem: Memory, t: Tick)
    ensures AnyClick(Post(mem, t.pen, t.mapping, t.to).events)
            <==> Presses(mem.system, SystemOf(t.mapping, t.pen.buttons), mem.drag) != []
  {
    var now := SystemOf(t.mapping, t.pen.buttons);
    var c, p := Crossing(mem, t.pen, t.mapping, t.to), Presses(mem.system, now, mem.drag);
    var o, d := Others(mem.system, now), Drift(mem, t.pen, t.mapping, t.to);
    PressesAreClicks(mem.system, now, mem.drag);
    OthersAreNoClicks(mem.system, now);
    EdgesAreNoClicks(mem, t);
    assert p != [] ==> IsClick(p[0]);
    hide Crossing, Presses, Others, Drift, SystemOf;
    AnyClickConcat(c + p + o, d);
    AnyClickConcat(c + p, o);
    AnyClickConcat(c, p);
  }

  lemma {:induction false} OthersAreNoClicks(was: System, now: System)
    ensures !AnyClick(Others(was, now))
  {
  }

  lemma {:induction false} EdgesAreNoClicks(mem: Memory, t: Tick)
    ensures !AnyClick(Crossing(mem, t.pen, t.mapping, t.to)) && !AnyClick(Drift(mem, t.pen, t.mapping, t.to))
  {
    hide Presses, MotionKind, Delta, PosAfterCrossing, SystemOf;
  }

  lemma {:induction false} PostMoves(mem: Memory, t: Tick)
    ensures AnyMove(Post(mem, t.pen, t.mapping, t.to).events) <==> Drift(mem, t.pen, t.mapping, t.to) != []
  {
    var now := SystemOf(t.mapping, t.pen.buttons);
    var early := Crossing(mem, t.pen, t.mapping, t.to) + Presses(mem.system, now, mem.drag) + Others(mem.system, now);
    var d := Drift(mem, t.pen, t.mapping, t.to);
    OnlyDriftMoves(mem, t);
    assert |d| <= 1 && (d != [] ==> d[0].Move?);
    hide Crossing, Presses, Others, Drift, SystemOf;
    var events := Post(mem, t.pen, t.mapping, t.to).events;
    assert events == early + d;
    if d != [] {
      assert events[|early|].Move?;
    }
  }

  /** Over every run: a call posts a plain move exactly when the pen is elsewhere than at
      the call before, across or down, and the call posts no click. */
  lemma {:induction false} MovesArePosted(ticks: seq<Tick>)
    requires ticks != []
    ensures var was, pen, events := LastPen(ticks[..|ticks| - 1]), LastPen(ticks), NewEvents(ticks);
      AnyMove(events) <==> (was.x != pen.x || was.y != pen.y) && !AnyClick(events)
  {
    var mem, t := Play(ticks[..|ticks| - 1]).memory, ticks[|ticks| - 1];
    MemoryIsLastPen(ticks[..|ticks| - 1]);
    PostMoves(mem, t);
    PostClicks(mem, t);
    hide Play, Presses, SystemOf, MotionKind, Delta, PosAfterCrossing, AnyMove, AnyClick;
  }

  // ---- what a report of a place says ----

  predicate TellsPlace(e: Event) {
    e.Proximity? || e.Move?
  }

  /** Whether a report calls the motion a drag: a left one while a drag is on or button 1,
      the eraser or grab/drop is pressed, else a right one while button 2 is. */
  ghost predicate TellsDrag(ticks: seq<Tick>, motion: Motion)
    requires ticks != []
  {
    var left := Grabs(ticks[..|ticks| - 1]) % 2 == 1
                || Down(ticks, BUTTON1) || Down(ticks, ERASER) || Down(ticks, CLICK_OR_RELEASE);
    motion == if left then LeftDragged else if Down(ticks, BUTTON2) then RightDragged else Moved
  }

  /** Every report of a call aims at the call's own place and tells the drag. */
  ghost predicate Tells(ticks: seq<Tick>, events: seq<Event>)
    requires ticks != []
  {
    forall i :: 0 <= i < |events| && TellsPlace(events[i]) ==>
      events[i].to == ticks[|ticks| - 1].to && TellsDrag(ticks, events[i].motion)
  }

  lemma {:induction false} KindIsTold(ticks: seq<Tick>)
    requires ticks != []
    ensures var mem, t := Play(ticks[..|ticks| - 1]).memory, ticks[|ticks| - 1];
      TellsDrag(ticks, MotionKind(mem.drag, SystemOf(t.mapping, t.pen.buttons)))
  {
    hide Play, Down, SystemOf, Grabs;
    DragIsOdd(ticks[..|ticks| - 1]);
    SystemIsDown(ticks);
    SystemOfLast(ticks);
  }

  lemma {:induction false} OthersTellNoPlace(was: System, now: System)
    ensures forall i :: 0 <= i < |Others(was, now)| ==> !TellsPlace(Others(was, now)[i])
  {
  }

  lemma {:induction false} PlacesOfPost(mem: Memory, t: Tick, e: Event)
    requires TellsPlace(e) && e in Post(mem, t.pen, t.mapping, t.to).events
    ensures e.to == t.to && e.motion == MotionKind(mem.drag, SystemOf(t.mapping, t.pen.buttons))
    ensures e.Proximity? ==> e.enter == !t.pen.offTablet && e.withEraser == PointerAfter(mem, t.pen, t.mapping)
  {
    var now := SystemOf(t.mapping, t.pen.buttons);
    PressesAreClicks(mem.system, now, mem.drag);
    OthersTellNoPlace(mem.system, now);
    hide Presses, Others, SystemOf, MotionKind, Delta, PosAfterCrossing, PointerAfter;
    assert e in Crossing(mem, t.pen, t.mapping, t.to) || e in Drift(mem, t.pen, t.mapping, t.to) by {
      assert e !in Presses(mem.system, now, mem.drag) && e !in Others(mem.system, now);
    }
  }

  /** Over every run: each report of a call is about the place the call aims at, and tells
      by the last pen whether the motion is a drag; an enter report calls the pointer an
      eraser exactly when the pen is one and that is mapped to the eraser. */
  lemma {:induction false} ReportsTell(ticks: seq<Tick>)
    requires ticks != []
    ensures Tells(ticks, NewEvents(ticks))
    ensures forall e :: e in NewEvents(ticks) && e.Proximity? && e.enter ==>
              !LastPen(ticks).offTablet
              && e.withEraser == (LastPen(ticks).eraserFlag && ticks[|ticks| - 1].mapping.eraser == ERASER)
  {
    var init, t := ticks[..|ticks| - 1], ticks[|ticks| - 1];
    var mem, events := Play(init).memory, NewEvents(ticks);
    KindIsTold(ticks);
    forall i | 0 <= i < |events| && TellsPlace(events[i])
      ensures events[i].to == t.to && TellsDrag(ticks, events[i].motion)
    {
      PlacesOfPost(mem, t, events[i]);
      hide *;
      LastCallPosts(ticks);
    }
    forall e | e in events && e.Proximity? && e.enter
      ensures !t.pen.offTablet && e.withEraser == (t.pen.eraserFlag && t.mapping.eraser == ERASER)
    {
      PlacesOfPost(mem, t, e);
      EnterIsCrossing(mem, t, e);
      hide Play, Post, SystemOf;
    }
    hide Play, Post, TellsDrag, MotionKind, SystemOf;
  }

  lemma {:induction false} LastCallPosts(ticks: seq<Tick>)
    requires ticks != []
    ensures var t := ticks[|ticks| - 1];
      NewEvents(ticks) == Post(Play(ticks[..|ticks| - 1]).memory, t.pen, t.mapping, t.to).events
  {
    hide Post, Play;
  }

  /** A proximity report comes only when the pen has come or gone. */
  lemma {:induction false} EnterIsCrossing(mem: Memory, t: Tick, e: Event)
    requires e.Proximity? && e in Post(mem, t.pen, t.mapping, t.to).events
    ensures mem.offTablet != t.pen.offTablet
  {
    var now := SystemOf(t.mapping, t.pen.buttons);
    PressesAreClicks(mem.system, now, mem.drag);
    OthersTellNoPlace(mem.system, now);
    hide Presses, Others, SystemOf, MotionKind, Delta, PosAfterCrossing, PointerAfter;
    assert e !in Drift(mem, t.pen, t.mapping, t.to);
    assert e !in Presses(mem.system, now, mem.drag) && e !in Others(mem.system, now);
    assert e in Crossing(mem, t.pen, t.mapping, t.to);
  }

  // ---- the pointer between enter and leave ----

  /** The proximity reports among the events. */
  function Crossings(events: seq<Event>): (r: seq<Event>) {
    if events == [] then []
    else Crossings(events[..|events| - 1]) + if events[|events| - 1].Proximity? then [events[|events| - 1]] else []
  }

  lemma {:induction false} CrossingsConcat(a: seq<Event>, b: seq<Event>)
    ensures Crossings(a + b) == Crossings(a) + Crossings(b)
    decreases |b|
  {
    if b == [] {
      assert a + b == a;
    } else {
      assert (a + b)[..|a + b| - 1] == a + b[..|b| - 1];
      CrossingsConcat(a, b[..|b| - 1]);
    }
  }

  lemma {:induction false} NoCrossings(events: seq<Event>)
    requires forall i :: 0 <= i < |events| ==> !events[i].Proximity?
    ensures Crossings(events) == []
  {
    if events != [] {
      NoCrossings(events[..|events| - 1]);
    }
  }

  lemma {:induction false} PostCrosses(mem: Memory, t: Tick)
    ensures Crossings(Post(mem, t.pen, t.mapping, t.to).events) == Crossing(mem, t.pen, t.mapping, t.to)
  {
    var now := SystemOf(t.mapping, t.pen.buttons);
    var c, p := Crossing(mem, t.pen, t.mapping, t.to), Presses(mem.system, now, mem.drag);
    var o, d := Others(mem.system, now), Drift(mem, t.pen, t.mapping, t.to);
    PressesAreClicks(mem.system, now, mem.drag);
    OthersTellNoPlace(mem.system, now);
    EdgesCross(mem, t);
    hide Crossing, Presses, Others, Drift, SystemOf, Crossings;
    NoCrossings(p);
    NoCrossings(o);
    CrossingsConcat(c + p + o, d);
    CrossingsConcat(c + p, o);
    CrossingsConcat(c, p);
    Alone(c);
  }

  lemma {:induction false} Alone<T>(c: seq<T>)
    ensures c + [] + [] + [] == c
  {
  }

  lemma {:induction false} EdgesCross(mem: Memory, t: Tick)
    ensures Crossings(Drift(mem, t.pen, t.mapping, t.to)) == []
    ensures var c := Crossing(mem, t.pen, t.mapping, t.to); Crossings(c) == c
  {
    hide Presses, SystemOf, MotionKind, Delta, PosAfterCrossing, PointerAfter;
    var c := Crossing(mem, t.pen, t.mapping, t.to);
    NoCrossings(Drift(mem, t.pen, t.mapping, t.to));
    if c != [] {
      assert c == [c[0]] && c[..0] == [];
    }
  }

  /** A leave has the pointer of the enter before it. */
  ghost predicate Matched(crossings: seq<Event>, j: nat)
    requires j < |crossings|
  {
    && crossings[j].Proximity?
    && (!crossings[j].enter ==>
          && j > 0 && crossings[j - 1].Proximity? && crossings[j - 1].enter
          && crossings[j].withEraser == crossings[j - 1].withEraser)
  }

  ghost predicate SamePointer(crossings: seq<Event>) {
    forall j :: 0 <= j < |crossings| ==> Matched(crossings, j)
  }

  /** What the last report leaves behind. */
  ghost predicate Leaves(crossings: seq<Event>, mem: Memory) {
    if crossings == [] then mem.offTablet
    else
      var last := crossings[|crossings| - 1];
      last.Proximity? && last.enter == !mem.offTablet && (last.enter ==> last.withEraser == mem.withEraser)
  }

  lemma {:induction false} PointerStays(crossings: seq<Event>, mem: Memory, t: Tick)
    requires SamePointer(crossings) && Leaves(crossings, mem)
    ensures var c := Crossing(mem, t.pen, t.mapping, t.to);
      && SamePointer(crossings + c)
      && Leaves(crossings + c, Post(mem, t.pen, t.mapping, t.to).memory)
  {
    hide Presses, Others, Drift, SystemOf, MotionKind, Delta, SamePointer;
    var c := Crossing(mem, t.pen, t.mapping, t.to);
    if c == [] {
      assert crossings + c == crossings;
    } else {
      assert c == [c[0]];
      PointerGrows(crossings, c[0]);
    }
  }

  lemma {:induction false} PointerGrows(crossings: seq<Event>, e: Event)
    requires SamePointer(crossings) && e.Proximity?
    requires !e.enter ==>
      crossings != [] && var last := crossings[|crossings| - 1];
      last.Proximity? && last.enter && e.withEraser == last.withEraser
    ensures SamePointer(crossings + [e])
  {
    var all := crossings + [e];
    forall j | 0 <= j < |all| ensures Matched(all, j) {
      assert j > 0 ==> all[j - 1] == crossings[j - 1];
      if j < |crossings| {
        assert Matched(crossings, j) && all[j] == crossings[j];
      } else {
        assert all[j] == e;
      }
    }
  }

  /** Over every run the proximity reports come in pairs of an enter and a leave that tell
      the same pointer, pen or eraser. */
  lemma {:induction false} PointersMatch(ticks: seq<Tick>)
    ensures SamePointer(Crossings(Play(ticks).events))
    ensures Leaves(Crossings(Play(ticks).events), Play(ticks).memory)
    decreases |ticks|
  {
    hide Play, Post, Crossings, SamePointer, Leaves, Crossing;
    if ticks == [] {
      NothingCrossed();
    } else {
      var k := |ticks| - 1;
      var before, t := Play(ticks[..k]), ticks[k];
      PointersMatch(ticks[..k]);
      PlayNext(ticks, k);
      assert ticks[..k + 1] == ticks;
      CrossingsConcat(before.events, Post(before.memory, t.pen, t.mapping, t.to).events);
      PostCrosses(before.memory, t);
      PointerStays(Crossings(before.events), before.memory, t);
    }
  }

  lemma {:induction false} NothingCrossed()
    ensures Crossings(Play([]).events) == [] && SamePointer([]) && Leaves([], Play([]).memory)
  {
  }

  // ---- moves during a drag ----

  /** Without a click a call changes neither button 1 without a drag nor the drag without
      button 1. */
  lemma {:induction false} SilentCallKeepsLeft(was: System, now: System, drag: bool)
    requires Presses(was, now, drag) == []
    ensures drag || now.button1 <==> DragAfter(was, now, drag) || now.button1
  {
    assert GrabOrDrop(was, now, drag) == [] && Button1(was, now, drag) == [];
  }

  /** Over every run with only button 1 and grab/drop on the left button and clean releases:
      a plain move is a left drag exactly when the left button is down by the events posted
      or the grab/drop button is being held. */
  lemma {:induction false} MovesTellDrags(ticks: seq<Tick>, e: Event)
    requires ticks != [] && forall i :: 0 <= i < |ticks| ==> GrabsOnly(ticks[i].mapping)
    requires forall k :: 0 <= k < |ticks| ==> CleanTick(ticks, k)
    requires e.Move? && e in NewEvents(ticks)
    ensures e.motion.LeftDragged? <==>
              Level(false, Signal(LeftButton, Play(ticks).events)) || Down(ticks, CLICK_OR_RELEASE)
  {
    hide Play, Down, Post, SystemOf, Presses, Signal, Level, Alternates, Grabs, CleanTick;
    var init, t := ticks[..|ticks| - 1], ticks[|ticks| - 1];
    var mem := Play(init).memory;
    var now := SystemOf(t.mapping, t.pen.buttons);
    GrabsTellButtons(ticks);
    DragIsOdd(ticks);
    LastCallPosts(ticks);
    PlacesOfPost(mem, t, e);
    MoveIsSilent(mem, t, e);
    SilentCallKeepsLeft(mem.system, now, mem.drag);
    SystemIsDown(ticks);
    SystemOfLast(ticks);
    DragAfterLast(ticks);
    NoEraserButton(t.mapping, t.pen.buttons);
  }

  lemma {:induction false} DragAfterLast(ticks: seq<Tick>)
    requires ticks != []
    ensures var mem := Play(ticks[..|ticks| - 1]).memory;
      Play(ticks).memory.drag == DragAfter(mem.system, Play(ticks).memory.system, mem.drag)
  {
    hide Crossing, Presses, Others, Drift, SystemOf, DragAfter;
  }

  lemma {:induction false} NoEraserButton(m: Mapping, b: Buttons)
    requires GrabsOnly(m)
    ensures !SystemOf(m, b).eraser
  {
  }

  lemma {:induction false} MoveIsSilent(mem: Memory, t: Tick, e: Event)
    requires e.Move? && e in Post(mem, t.pen, t.mapping, t.to).events
    ensures Presses(mem.system, SystemOf(t.mapping, t.pen.buttons), mem.drag) == []
  {
    PostMoves(mem, t);
    var events := Post(mem, t.pen, t.mapping, t.to).events;
    hide Post, Presses, SystemOf;
    var i :| 0 <= i < |events| && events[i] == e;
    assert events[i].Move?;
  }
}
