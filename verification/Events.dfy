/** The event generator: from a change of the stylus to mouse events. */
module Events {
  import opened Stylus

  /** System button codes of the button mapping. */
  const BUTTON1 := 1
  const BUTTON2 := 2
  const BUTTON3 := 3
  const BUTTON4 := 4
  const BUTTON5 := 5
  const ERASER := 6
  const DOUBLE_CLICK := 7
  const SINGLE_CLICK := 8
  const CLICK_OR_RELEASE := 10
  const CLICK_TYPES := 11

  /** The position no move has been reported from yet. */
  const SHRT_MIN := -32768

  datatype Point = Point(x: int, y: int)

  /** Which system button each stylus button drives. */
  datatype Mapping = Mapping(tip: nat, side1: nat, side2: nat, eraser: nat) {
    predicate Valid() {
      tip < CLICK_TYPES && side1 < CLICK_TYPES && side2 < CLICK_TYPES && eraser < CLICK_TYPES
    }

    predicate Uses(code: nat) {
      tip == code || side1 == code || side2 == code || eraser == code
    }
  }

  /** The state of the system buttons that have an effect. */
  datatype System = System(
    button1: bool, button2: bool, button3: bool, button4: bool, button5: bool,
    eraser: bool, doubleClick: bool, singleClick: bool, grab: bool)

  const NONE := System(false, false, false, false, false, false, false, false, false)

  predicate Driven(m: Mapping, b: Buttons, code: nat) {
    || (m.tip == code && b.tip) || (m.side1 == code && b.side1)
    || (m.side2 == code && b.side2) || (m.eraser == code && b.eraser)
  }

  function SystemOf(m: Mapping, b: Buttons): (s: System) {
    System(Driven(m, b, BUTTON1), Driven(m, b, BUTTON2), Driven(m, b, BUTTON3), Driven(m, b, BUTTON4),
           Driven(m, b, BUTTON5), Driven(m, b, ERASER), Driven(m, b, DOUBLE_CLICK),
           Driven(m, b, SINGLE_CLICK), Driven(m, b, CLICK_OR_RELEASE))
  }

  datatype Motion = Moved | LeftDragged | RightDragged

  /** Posted events. Proximity reports are move events too, and carry the motion since the
      last move event. */
  datatype Event =
    | Proximity(enter: bool, withEraser: bool, motion: Motion, to: Point, delta: Point)
    | Move(motion: Motion, to: Point, delta: Point)
    | Left(down: bool, clicks: nat)
    | Right(down: bool)
    | Other(button: nat, down: bool)

  /** What the generator remembers from one call to the next. */
  datatype Memory = Memory(
    offTablet: bool, x: int, y: int,
    system: System,
    drag: bool,
    lastPos: Point,
    withEraser: bool)

  const FRESH := Memory(true, 0, 0, NONE, false, Point(SHRT_MIN, SHRT_MIN), false)

  datatype Posted = Posted(memory: Memory, events: seq<Event>)

  function Delta(last: Point, to: Point): (d: Point) {
    if last.x == SHRT_MIN then Point(0, 0) else Point(to.x - last.x, to.y - last.y)
  }

  function MotionKind(drag: bool, now: System): (k: Motion) {
    if drag || now.grab || now.button1 || now.eraser then LeftDragged
    else if now.button2 then RightDragged
    else Moved
  }

  /** A burst for a double click, which a held button 1 surrounds. */
  function DoubleClick(was: System, now: System): (events: seq<Event>) {
    if !now.doubleClick || was.doubleClick then []
    else if was.button1 then [Left(false, 1), Left(true, 1), Left(false, 1), Left(true, 2)]
    else [Left(true, 1), Left(false, 1), Left(true, 2), Left(false, 2)]
  }

  function SingleClick(was: System, now: System): (events: seq<Event>) {
    if !now.singleClick || was.singleClick then []
    else if was.button1 then [Left(false, 1), Left(true, 1), Left(false, 1), Left(true, 1)]
    else [Left(true, 1), Left(false, 1)]
  }

  /** The grab-or-drop button acts when it is let go. */
  predicate Released(was: System, now: System) {
    was.grab && !now.grab
  }

  function Toggled(was: System, now: System, drag: bool): (d: bool) {
    if Released(was, now) then !drag else drag
  }

  function GrabOrDrop(was: System, now: System, drag: bool): (events: seq<Event>) {
    var d := Toggled(was, now, drag);
    if Released(was, now) && (!d || !now.button1) then [Left(d, 1)] else []
  }

  /** Letting go of button 1 cancels a drag. */
  function DragAfter(was: System, now: System, drag: bool): (d: bool) {
    Toggled(was, now, drag) && !(was.button1 && !now.button1)
  }

  function Button1(was: System, now: System, drag: bool): (events: seq<Event>) {
    if was.button1 != now.button1 && !DragAfter(was, now, drag) then [Left(now.button1, 1)] else []
  }

  function Button2(was: System, now: System): (events: seq<Event>) {
    if was.button2 != now.button2 then [Right(now.button2)] else []
  }

  function EraserTip(was: System, now: System): (events: seq<Event>) {
    if was.eraser != now.eraser then [Left(now.eraser, 1)] else []
  }

  function OtherButton(button: nat, was: bool, isNow: bool): (events: seq<Event>) {
    if was != isNow then [Other(button, isNow)] else []
  }

  /** All button events of a call that carry the position. */
  function Presses(was: System, now: System, drag: bool): (events: seq<Event>) {
    DoubleClick(was, now) + SingleClick(was, now) + GrabOrDrop(was, now, drag)
    + Button1(was, now, drag) + Button2(was, now) + EraserTip(was, now)
  }

  function Others(was: System, now: System): (events: seq<Event>) {
    OtherButton(2, was.button3, now.button3) + OtherButton(3, was.button4, now.button4)
    + OtherButton(4, was.button5, now.button5)
  }

  function PointerAfter(mem: Memory, pen: Pen, m: Mapping): (withEraser: bool) {
    if mem.offTablet && !pen.offTablet then pen.eraserFlag && m.eraser == ERASER else mem.withEraser
  }

  function Crossing(mem: Memory, pen: Pen, m: Mapping, to: Point): (events: seq<Event>) {
    if mem.offTablet == pen.offTablet then []
    else [Proximity(!pen.offTablet, PointerAfter(mem, pen, m),
                    MotionKind(mem.drag, SystemOf(m, pen.buttons)), to, Delta(mem.lastPos, to))]
  }

  function PosAfterCrossing(mem: Memory, pen: Pen, to: Point): (p: Point) {
    if mem.offTablet == pen.offTablet then mem.lastPos else to
  }

  function Drift(mem: Memory, pen: Pen, m: Mapping, to: Point): (events: seq<Event>) {
    var now := SystemOf(m, pen.buttons);
    if Presses(mem.system, now, mem.drag) == [] && (mem.x != pen.x || mem.y != pen.y) then
      [Move(MotionKind(mem.drag, now), to, Delta(PosAfterCrossing(mem, pen, to), to))]
    else
      []
  }

  /** One call of PostChangeEvents, with the screen position it has computed. */
  function Post(mem: Memory, pen: Pen, m: Mapping, to: Point): (r: Posted) {
    var now := SystemOf(m, pen.buttons);
    var drift := Drift(mem, pen, m, to);
    Posted(
      Memory(pen.offTablet, pen.x, pen.y, now, DragAfter(mem.system, now, mem.drag),
             if drift == [] then PosAfterCrossing(mem, pen, to) else to,
             PointerAfter(mem, pen, m)),
      Crossing(mem, pen, m, to) + Presses(mem.system, now, mem.drag) + Others(mem.system, now) + drift)
  }
}
