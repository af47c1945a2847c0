/** PostChangeEvents as the daemon runs it: on button arrays, a remembered stylus and a
    drag flag that survives from call to call. */
module EventPoster {
  import opened Stylus
  import opened Events
  import opened Pointer

  /** The system buttons of a button array. */
  function SystemIn(s: seq<bool>): (r: System)
    requires |s| == CLICK_TYPES
  {
    System(s[BUTTON1], s[BUTTON2], s[BUTTON3], s[BUTTON4], s[BUTTON5],
           s[ERASER], s[DOUBLE_CLICK], s[SINGLE_CLICK], s[CLICK_OR_RELEASE])
  }

  class Poster {
    var stylus: Pen
    var oldStylus: Pen
    var mapping: Mapping
    const buttonState: array<bool>
    const oldButtonState: array<bool>
    var dragState: bool
    var areas: Areas
    var scrPos: Point
    var oldPos: Point
    var withEraser: bool
    ghost var posted: seq<Event>

    ghost predicate Valid()
      reads this
    {
      && buttonState.Length == CLICK_TYPES && oldButtonState.Length == CLICK_TYPES
      && buttonState != oldButtonState
      && mapping.Valid()
      && areas.tablet.w != 0.0 && areas.tablet.h != 0.0
    }

    ghost function Remembered(): (mem: Memory)
      requires Valid()
      reads this, oldButtonState
    {
      Memory(oldStylus.offTablet, oldStylus.x, oldStylus.y, SystemIn(oldButtonState[..]), dragState, oldPos, withEraser)
    }

    /** InitStylus, with an initial pointer position. */
    constructor (mapping: Mapping, areas: Areas, pointer: Point)
      requires mapping.Valid() && areas.tablet.w != 0.0 && areas.tablet.h != 0.0
      ensures Valid() && Remembered() == FRESH && posted == [] && stylus == AT_REST && scrPos == pointer
      ensures this.mapping == mapping && this.areas == areas && fresh(buttonState) && fresh(oldButtonState)
    {
      stylus, oldStylus := AT_REST, AT_REST;
      this.mapping, this.areas := mapping, areas;
      buttonState := new bool[CLICK_TYPES](_ => false);
      oldButtonState := new bool[CLICK_TYPES](_ => false);
      dragState, withEraser := false, false;
      scrPos, oldPos := pointer, Point(SHRT_MIN, SHRT_MIN);
      posted := [];
    }

    /** The part of POST_EVENT that move events have: the motion since the last of them. */
    method ReportMotion() returns (delta: Point)
      modifies this`oldPos
      ensures delta == Delta(old(oldPos), scrPos) && oldPos == scrPos
    {
      if oldPos.x == SHRT_MIN {
        delta := Point(0, 0);
      } else {
        delta := Point(scrPos.x - oldPos.x, scrPos.y - oldPos.y);
      }
      oldPos := scrPos;
    }

    method MapButtons()
      requires Valid()
      modifies buttonState
      ensures SystemIn(buttonState[..]) == SystemOf(mapping, stylus.buttons)
    {
      var i := 0;
      while i < buttonState.Length
        invariant 0 <= i <= buttonState.Length
        invariant forall k :: 0 <= k < i ==> !buttonState[k]
      {
        buttonState[i] := false;
        i := i + 1;
      }
      Drive(mapping.tip, stylus.buttons.tip);
      Drive(mapping.side1, stylus.buttons.side1);
      Drive(mapping.side2, stylus.buttons.side2);
      Drive(mapping.eraser, stylus.buttons.eraser);
      assert forall k :: 0 <= k < buttonState.Length ==> buttonState[k] == Driven(mapping, stylus.buttons, k);
      hide Driven;
    }

    method Drive(code: nat, pressed: bool)
      requires code < buttonState.Length
      modifies buttonState
      ensures forall k :: 0 <= k < buttonState.Length ==>
                buttonState[k] == (old(buttonState[k]) || (k == code && pressed))
    {
      buttonState[code] := buttonState[code] || pressed;
    }

    method PostDoubleClick() returns (some: bool)
      requires Valid()
      modifies this`posted
      ensures var burst := DoubleClick(SystemIn(oldButtonState[..]), SystemIn(buttonState[..]));
        posted == old(posted) + burst && some == (burst != [])
    {
      some := false;
      if buttonState[DOUBLE_CLICK] && !oldButtonState[DOUBLE_CLICK] {
        if oldButtonState[BUTTON1] {
          posted := posted + [Left(false, 1)];
        }
        posted := posted + [Left(true, 1)];
        posted := posted + [Left(false, 1)];
        posted := posted + [Left(true, 2)];
        if !oldButtonState[BUTTON1] {
          posted := posted + [Left(false, 2)];
        }
        some := true;
      }
    }

    method PostSingleClick() returns (some: bool)
      requires Valid()
      modifies this`posted
      ensures var burst := SingleClick(SystemIn(oldButtonState[..]), SystemIn(buttonState[..]));
        posted == old(posted) + burst && some == (burst != [])
    {
      some := false;
      if buttonState[SINGLE_CLICK] && !oldButtonState[SINGLE_CLICK] {
        if oldButtonState[BUTTON1] {
          posted := posted + [Left(false, 1)];
        }
        posted := posted + [Left(true, 1)];
        posted := posted + [Left(false, 1)];
        if oldButtonState[BUTTON1] {
          posted := posted + [Left(true, 1)];
        }
        some := true;
      }
    }

    /** The bursts for double and single clicks. */
    method PostClicks() returns (some: bool)
      requires Valid()
      modifies this`posted
      ensures var was, now := SystemIn(oldButtonState[..]), SystemIn(buttonState[..]);
        && posted == old(posted) + (DoubleClick(was, now) + SingleClick(was, now))
        && some == (DoubleClick(was, now) + SingleClick(was, now) != [])
    {
      hide DoubleClick, SingleClick, SystemIn;
      ghost var was, now := SystemIn(oldButtonState[..]), SystemIn(buttonState[..]);
      Reassociate(posted, DoubleClick(was, now), SingleClick(was, now));
      var double := PostDoubleClick();
      var single := PostSingleClick();
      some := double || single;
    }

    /** Grab or drop, then button 1. */
    method PostGrabAndButton1() returns (some: bool)
      requires Valid()
      modifies this`posted, this`dragState
      ensures var was, now := SystemIn(oldButtonState[..]), SystemIn(buttonState[..]);
        var events := GrabOrDrop(was, now, old(dragState)) + Button1(was, now, old(dragState));
        && posted == old(posted) + events
        && some == (events != [])
        && dragState == DragAfter(was, now, old(dragState))
    {
      some := false;
      ghost var was, now, before, drag := SystemIn(oldButtonState[..]), SystemIn(buttonState[..]), posted, dragState;
      if !buttonState[CLICK_OR_RELEASE] && oldButtonState[CLICK_OR_RELEASE] {
        dragState := !dragState;
        if !dragState || !buttonState[BUTTON1] {
          posted := posted + [Left(dragState, 1)];
          some := true;
        }
      }
      assert posted == before + GrabOrDrop(was, now, drag);
      if oldButtonState[BUTTON1] != buttonState[BUTTON1] {
        if dragState && !buttonState[BUTTON1] {
          dragState := false;
        }
        if !dragState {
          posted := posted + [Left(buttonState[BUTTON1], 1)];
          some := true;
        }
      }
      assert posted == before + GrabOrDrop(was, now, drag) + Button1(was, now, drag);
    }

    /** Button 2 and the eraser tip. */
    method PostButton2AndEraser() returns (some: bool)
      requires Valid()
      modifies this`posted
      ensures var was, now := SystemIn(oldButtonState[..]), SystemIn(buttonState[..]);
        && posted == old(posted) + (Button2(was, now) + EraserTip(was, now))
        && some == (Button2(was, now) + EraserTip(was, now) != [])
    {
      some := false;
      ghost var was, now, before := SystemIn(oldButtonState[..]), SystemIn(buttonState[..]), posted;
      if oldButtonState[BUTTON2] != buttonState[BUTTON2] {
        posted := posted + [Right(buttonState[BUTTON2])];
        some := true;
      }
      assert posted == before + Button2(was, now);
      if oldButtonState[ERASER] != buttonState[ERASER] {
        posted := posted + [Left(buttonState[ERASER], 1)];
        some := true;
      }
      assert posted == before + Button2(was, now) + EraserTip(was, now);
    }

    /** A press or release of one of the buttons with numbers of their own. */
    method PostOther(code: nat, button: nat)
      requires Valid() && code < CLICK_TYPES
      modifies this`posted
      ensures posted == old(posted) + OtherButton(button, oldButtonState[code], buttonState[code])
    {
      if oldButtonState[code] != buttonState[code] {
        posted := posted + [Other(button, buttonState[code])];
      }
    }

    method PostOthers()
      requires Valid()
      modifies this`posted
      ensures posted == old(posted) + Others(SystemIn(oldButtonState[..]), SystemIn(buttonState[..]))
    {
      hide OtherButton;
      ghost var before, a := posted, OtherButton(2, oldButtonState[BUTTON3], buttonState[BUTTON3]);
      ghost var b := OtherButton(3, oldButtonState[BUTTON4], buttonState[BUTTON4]);
      ghost var c := OtherButton(4, oldButtonState[BUTTON5], buttonState[BUTTON5]);
      PostOther(BUTTON3, 2);
      PostOther(BUTTON4, 3);
      PostOther(BUTTON5, 4);
      assert Others(SystemIn(oldButtonState[..]), SystemIn(buttonState[..])) == a + b + c;
      ThreeParts(before, a, b, c);
    }

    /** A proximity report, if the pen has come to the tablet or left it. */
    method PostCrossing(buttonEvent: Motion)
      modifies this`oldPos, this`withEraser, this`posted
      ensures var crossed := oldStylus.offTablet != stylus.offTablet;
        && withEraser == (if crossed && !stylus.offTablet then stylus.eraserFlag && mapping.eraser == ERASER
                          else old(withEraser))
        && oldPos == (if crossed then scrPos else old(oldPos))
        && posted == old(posted) +
             if crossed then [Proximity(!stylus.offTablet, withEraser, buttonEvent, scrPos, Delta(old(oldPos), scrPos))]
             else []
    {
      if oldStylus.offTablet != stylus.offTablet {
        if !stylus.offTablet {
          withEraser := stylus.eraserFlag && mapping.eraser == ERASER;
        }
        var delta := ReportMotion();
        posted := posted + [Proximity(!stylus.offTablet, withEraser, buttonEvent, scrPos, delta)];
      }
    }

    /** A plain move, if the pen is elsewhere and nothing posted so far has said where. */
    method PostDrift(buttonEvent: Motion, postedPosition: bool)
      modifies this`oldPos, this`posted
      ensures var moves := !postedPosition && (oldStylus.x != stylus.x || oldStylus.y != stylus.y);
        && oldPos == (if moves then scrPos else old(oldPos))
        && posted == old(posted) + if moves then [Move(buttonEvent, scrPos, Delta(old(oldPos), scrPos))] else []
    {
      if !postedPosition && (oldStylus.x != stylus.x || oldStylus.y != stylus.y) {
        var delta := ReportMotion();
        posted := posted + [Move(buttonEvent, scrPos, delta)];
      }
    }

    method RememberState()
      requires Valid()
      modifies this`oldStylus, oldButtonState
      ensures oldStylus == stylus && oldButtonState[..] == buttonState[..]
    {
      var i := 0;
      while i < buttonState.Length
        invariant 0 <= i <= buttonState.Length
        invariant oldButtonState[..i] == buttonState[..i]
      {
        oldButtonState[i] := buttonState[i];
        i := i + 1;
      }
      assert oldButtonState[..] == oldButtonState[..i] && buttonState[..] == buttonState[..i];
      oldStylus := stylus;
    }

    method PostButtons() returns (postedPosition: bool)
      requires Valid()
      modifies this`posted, this`dragState
      ensures var was, now := SystemIn(oldButtonState[..]), SystemIn(buttonState[..]);
        && posted == old(posted) + (Presses(was, now, old(dragState)) + Others(was, now))
        && postedPosition == (Presses(was, now, old(dragState)) != [])
        && dragState == DragAfter(was, now, old(dragState))
    {
      ghost var was, now, p0 := SystemIn(oldButtonState[..]), SystemIn(buttonState[..]), posted;
      var clicks := PostClicks();
      ghost var p1 := posted;
      var grabs := PostGrabAndButton1();
      ghost var p2 := posted;
      var others := PostButton2AndEraser();
      ghost var p3 := posted;
      PostOthers();
      postedPosition := clicks || grabs || others;
      PressGroups(was, now, old(dragState), p0, p1, p2, p3);
      Reassociate(p0, Presses(was, now, old(dragState)), Others(was, now));
    }

    /** Map the buttons and report a change of proximity. */
    method BeginChanges() returns (buttonEvent: Motion)
      requires Valid()
      modifies this`oldPos, this`withEraser, this`posted, buttonState
      ensures SystemIn(buttonState[..]) == SystemOf(mapping, stylus.buttons)
      ensures buttonEvent == MotionKind(dragState, SystemOf(mapping, stylus.buttons))
      ensures var mem := old(Remembered());
        && posted == old(posted) + Crossing(mem, stylus, mapping, scrPos)
        && oldPos == PosAfterCrossing(mem, stylus, scrPos)
        && withEraser == PointerAfter(mem, stylus, mapping)
    {
      hide SystemOf, Delta;
      MapButtons();
      buttonEvent := if dragState || buttonState[CLICK_OR_RELEASE] || buttonState[BUTTON1] || buttonState[ERASER]
                     then LeftDragged
                     else if buttonState[BUTTON2] then RightDragged else Moved;
      PostCrossing(buttonEvent);
    }

    /** Everything after the screen position has been computed. */
    method PostChanges()
      requires Valid()
      modifies this`oldStylus, this`dragState, this`oldPos, this`withEraser, this`posted
      modifies buttonState, oldButtonState
      ensures Valid() && oldStylus == stylus
      ensures posted == old(posted) + Post(old(Remembered()), stylus, mapping, scrPos).events
      ensures Remembered() == Post(old(Remembered()), stylus, mapping, scrPos).memory
    {
      hide Crossing, Presses, Others, SystemOf, SystemIn, DragAfter, MotionKind, PosAfterCrossing, PointerAfter;
      ghost var mem, before := Remembered(), posted;
      ghost var now := SystemOf(mapping, stylus.buttons);
      var buttonEvent := BeginChanges();
      ghost var p1 := posted;
      var postedPosition := PostButtons();
      ghost var p2 := posted;
      assert p2 == p1 + (Presses(mem.system, now, mem.drag) + Others(mem.system, now));
      PostDrift(buttonEvent, postedPosition);
      assert posted == p2 + Drift(mem, stylus, mapping, scrPos);
      FourParts(before, Crossing(mem, stylus, mapping, scrPos), Presses(mem.system, now, mem.drag),
                Others(mem.system, now), Drift(mem, stylus, mapping, scrPos));
      RememberState();
    }

    /** One axis in mouse mode: the motion is held within the size of the mapped side. */
    static method LimitedMotion(last: int, bounds: int, motion: int, mult: real, side: real) returns (n: real)
      ensures n == Relative(last, bounds, motion, mult, side)
    {
      n := (last - bounds) as real + motion as real * mult;
      if n < 0.0 {
        n := 0.0;
      }
      if n >= side {
        n := side - 1.0;
      }
    }

    /** One axis in absolute mode: constrain the pen to the tablet area and map it. */
    static method MappedPoint(p: real, t: real, tside: real, s: real, sside: real) returns (n: real)
      requires tside != 0.0
      ensures n == Absolute(p, t, tside, s, sside)
    {
      var ratio := sside / tside;
      var last, x := t + tside - 1.0, p;
      if x < t {
        x := t;
      }
      if x > last {
        x := last;
      }
      assert x == ClampPen(p, t, tside);
      hide Absolute, ClampPen;
      AbsoluteFrom(x, ratio, p, t, tside, s, sside);
      n := s + (x - t) * ratio;
    }

    /** The screen position that the stylus asks for. */
    method Aim()
      requires Valid()
      modifies this`scrPos
      ensures scrPos == Target(areas, stylus, oldPos)
    {
      var nx, ny;
      if areas.mouseMode {
        var mult := MouseMultiplier(areas);
        nx := LimitedMotion(oldPos.x, areas.boundsX, stylus.motionX, mult, areas.screen.w);
        ny := LimitedMotion(oldPos.y, areas.boundsY, stylus.motionY, mult, areas.screen.h);
      } else {
        nx := MappedPoint(stylus.x as real, areas.tablet.x, areas.tablet.w, areas.screen.x, areas.screen.w);
        ny := MappedPoint(stylus.y as real, areas.tablet.y, areas.tablet.h, areas.screen.y, areas.screen.h);
      }
      scrPos := Point(Trunc(nx) + areas.boundsX, Trunc(ny) + areas.boundsY);
    }

    method PostChangeEvents()
      requires Valid()
      modifies this`oldStylus, this`dragState, this`scrPos, this`oldPos, this`withEraser, this`posted
      modifies buttonState, oldButtonState
      ensures Valid() && oldStylus == stylus
      ensures scrPos == Target(areas, stylus, old(oldPos))
      ensures posted == old(posted) + Post(old(Remembered()), stylus, mapping, scrPos).events
      ensures Remembered() == Post(old(Remembered()), stylus, mapping, scrPos).memory
    {
      Aim();
      PostChanges();
    }
  }

  lemma {:induction false} AbsoluteFrom(x: real, ratio: real, p: real, t: real, tside: real, s: real, sside: real)
    requires tside != 0.0 && x == ClampPen(p, t, tside) && ratio == sside / tside
    ensures s + (x - t) * ratio == Absolute(p, t, tside, s, sside)
  {
    hide ClampPen;
  }

  lemma {:induction false} FourParts(s: seq<Event>, a: seq<Event>, b: seq<Event>, c: seq<Event>, d: seq<Event>)
    ensures s + a + (b + c) + d == s + (a + b + c + d)
  {
  }

  lemma {:induction false} ThreeParts(s: seq<Event>, a: seq<Event>, b: seq<Event>, c: seq<Event>)
    ensures s + a + b + c == s + (a + b + c)
  {
  }

  lemma {:induction false} Reassociate(a: seq<Event>, b: seq<Event>, c: seq<Event>)
    ensures (a + b) + c == a + (b + c)
  {
  }

  lemma {:induction false} ThreeGroups(p: seq<Event>, a: seq<Event>, b: seq<Event>, c: seq<Event>, d: seq<Event>,
                                       e: seq<Event>, f: seq<Event>)
    ensures p + (a + b) + (c + d) + (e + f) == p + (a + b + c + d + e + f)
    ensures a + b + c + d + e + f == [] <==> a + b == [] && c + d == [] && e + f == []
  {
  }

  lemma {:induction false} PressGroups(was: System, now: System, drag: bool,
                    p0: seq<Event>, p1: seq<Event>, p2: seq<Event>, p3: seq<Event>)
    requires p1 == p0 + (DoubleClick(was, now) + SingleClick(was, now))
    requires p2 == p1 + (GrabOrDrop(was, now, drag) + Button1(was, now, drag))
    requires p3 == p2 + (Button2(was, now) + EraserTip(was, now))
    ensures p3 == p0 + Presses(was, now, drag)
    ensures Presses(was, now, drag) == [] <==>
              && DoubleClick(was, now) + SingleClick(was, now) == []
              && GrabOrDrop(was, now, drag) + Button1(was, now, drag) == []
              && Button2(was, now) + EraserTip(was, now) == []
  {
    ThreeGroups(p0, DoubleClick(was, now), SingleClick(was, now), GrabOrDrop(was, now, drag),
                Button1(was, now, drag), Button2(was, now), EraserTip(was, now));
  }
}
