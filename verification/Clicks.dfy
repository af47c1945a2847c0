/** What the posted button events say about the pen, told without the generator's own
    button states: by the stylus buttons that are pressed and what they are mapped to. */
module Clicks {
  import opened Arith
  import opened Stylus
  import opened Events
  import opened EventRuns
  import opened Alternation

  datatype StylusButton = Tip | Side1 | Side2 | EraserEnd

  predicate Held(b: Buttons, k: StylusButton) {
    match k
    case Tip => b.tip
    case Side1 => b.side1
    case Side2 => b.side2
    case EraserEnd => b.eraser
  }

  function CodeOf(m: Mapping, k: StylusButton): (code: nat) {
    match k
    case Tip => m.tip
    case Side1 => m.side1
    case Side2 => m.side2
    case EraserEnd => m.eraser
  }

  /** Some pressed stylus button is mapped to a system button. */
  ghost predicate Pressing(m: Mapping, b: Buttons, code: nat) {
    exists k: StylusButton :: Held(b, k) && CodeOf(m, k) == code
  }

  lemma {:induction false} DrivenIsPressing(m: Mapping, b: Buttons, code: nat)
    ensures Driven(m, b, code) <==> Pressing(m, b, code)
  {
    if Driven(m, b, code) {
      assert Held(b, Tip) || Held(b, Side1) || Held(b, Side2) || Held(b, EraserEnd);
      assert (Held(b, Tip) && CodeOf(m, Tip) == code) || (Held(b, Side1) && CodeOf(m, Side1) == code)
          || (Held(b, Side2) && CodeOf(m, Side2) == code) || (Held(b, EraserEnd) && CodeOf(m, EraserEnd) == code);
    }
  }

  /** A system button is pressed after a run when the last pen presses it. */
  ghost predicate Down(ticks: seq<Tick>, code: nat) {
    ticks != [] && Pressing(ticks[|ticks| - 1].mapping, ticks[|ticks| - 1].pen.buttons, code)
  }

  /** What the generator remembers of a run is what the last pen pressed. */
  lemma {:induction false} SystemIsDown(ticks: seq<Tick>)
    ensures var s := Play(ticks).memory.system;
      && s.button1 == Down(ticks, BUTTON1) && s.button2 == Down(ticks, BUTTON2) && s.button3 == Down(ticks, BUTTON3)
      && s.button4 == Down(ticks, BUTTON4) && s.button5 == Down(ticks, BUTTON5) && s.eraser == Down(ticks, ERASER)
      && s.doubleClick == Down(ticks, DOUBLE_CLICK) && s.singleClick == Down(ticks, SINGLE_CLICK)
      && s.grab == Down(ticks, CLICK_OR_RELEASE)
  {
    if ticks != [] {
      var t := ticks[|ticks| - 1];
      SystemOfLast(ticks);
      forall code: nat ensures Driven(t.mapping, t.pen.buttons, code) == Pressing(t.mapping, t.pen.buttons, code) {
        DrivenIsPressing(t.mapping, t.pen.buttons, code);
      }
      hide Driven, Pressing, Play;
    }
  }

  lemma {:induction false} SystemOfLast(ticks: seq<Tick>)
    requires ticks != []
    ensures Play(ticks).memory.system == SystemOf(ticks[|ticks| - 1].mapping, ticks[|ticks| - 1].pen.buttons)
  {
    hide Crossing, Presses, Others, Drift, SystemOf;
  }

  /** The right and the other buttons are down by the events posted exactly when the last
      pen presses them, and so is the pen near exactly when it is on the tablet. */
  ghost predicate TellsOthers(ticks: seq<Tick>, events: seq<Event>) {
    && Level(false, Signal(RightButton, events)) == Down(ticks, BUTTON2)
    && Level(false, Signal(OtherButtonOf(2), events)) == Down(ticks, BUTTON3)
    && Level(false, Signal(OtherButtonOf(3), events)) == Down(ticks, BUTTON4)
    && Level(false, Signal(OtherButtonOf(4), events)) == Down(ticks, BUTTON5)
    && Level(false, Signal(Nearness, events)) == (ticks != [] && !ticks[|ticks| - 1].pen.offTablet)
  }

  /** The left button has been pressed once more than released for a pressed button mapped
      to button 1, and once more for one mapped to the eraser. */
  ghost predicate TellsLeft(ticks: seq<Tick>, events: seq<Event>) {
    Count(0, Signal(LeftButton, events)) == Bit(Down(ticks, BUTTON1)) + Bit(Down(ticks, ERASER))
  }

  /** Over every run the events posted tell which buttons the last pen presses, the left
      button's when grab/drop is never mapped. */
  lemma {:induction false} EventsTellButtons(ticks: seq<Tick>)
    ensures TellsOthers(ticks, Play(ticks).events)
    ensures NeverGrabs(ticks) ==> TellsLeft(ticks, Play(ticks).events)
  {
    OthersTold(ticks);
    if NeverGrabs(ticks) {
      LeftButtonBalances(ticks);
      SystemIsDown(ticks);
    }
    hide Play, Signal, Count, NeverNegative, Down, TellsOthers;
  }

  lemma {:induction false} OthersTold(ticks: seq<Tick>)
    ensures TellsOthers(ticks, Play(ticks).events)
  {
    hide Play, Signal, Alternates, Level, Down;
    SystemIsDown(ticks);
    NearLast(ticks);
    ChannelsAlternate(RightButton, ticks);
    ChannelsAlternate(OtherButtonOf(2), ticks);
    ChannelsAlternate(OtherButtonOf(3), ticks);
    ChannelsAlternate(OtherButtonOf(4), ticks);
    ChannelsAlternate(Nearness, ticks);
  }

  lemma {:induction false} NearLast(ticks: seq<Tick>)
    ensures !Play(ticks).memory.offTablet <==> ticks != [] && !ticks[|ticks| - 1].pen.offTablet
  {
    hide Crossing, Presses, Others, Drift, SystemOf;
  }

  // ---- no click is lost or made up ----

  predicate IsLeftDown(e: Event) {
    e.Left? && e.down
  }

  /** The second press of a double click. */
  predicate IsSecondDown(e: Event) {
    e.Left? && e.down && e.clicks == 2
  }

  predicate IsRightDown(e: Event) {
    e.Right? && e.down
  }

  /** How many of the events are of a kind. */
  function Tally(kind: Event -> bool, events: seq<Event>): (n: nat) {
    if events == [] then 0 else Tally(kind, events[..|events| - 1]) + Bit(kind(events[|events| - 1]))
  }

  lemma {:induction false} TallyConcat(kind: Event -> bool, a: seq<Event>, b: seq<Event>)
    ensures Tally(kind, a + b) == Tally(kind, a) + Tally(kind, b)
    decreases |b|
  {
    if b == [] {
      assert a + b == a;
    } else {
      assert (a + b)[..|a + b| - 1] == a + b[..|b| - 1];
      TallyConcat(kind, a, b[..|b| - 1]);
    }
  }

  lemma {:induction false} TallyOne(kind: Event -> bool, e: Event)
    ensures Tally(kind, [e]) == Bit(kind(e)) && Tally(kind, []) == 0
  {
    assert [e][..0] == [];
  }

  lemma {:induction false} TallyTwo(kind: Event -> bool, d: Event, e: Event)
    ensures Tally(kind, [d, e]) == Bit(kind(d)) + Bit(kind(e))
  {
    assert [d, e] == [d] + [e];
    TallyConcat(kind, [d], [e]);
    TallyOne(kind, d);
    TallyOne(kind, e);
  }

  lemma {:induction false} TallyFour(kind: Event -> bool, d: Event, e: Event, f: Event, g: Event)
    ensures Tally(kind, [d, e, f, g]) == Bit(kind(d)) + Bit(kind(e)) + Bit(kind(f)) + Bit(kind(g))
  {
    assert [d, e, f, g] == [d, e] + [f, g];
    TallyConcat(kind, [d, e], [f, g]);
    TallyTwo(kind, d, e);
    TallyTwo(kind, f, g);
  }

  lemma {:induction false} TallyFourParts(kind: Event -> bool, a: seq<Event>, b: seq<Event>, c: seq<Event>,
                                          d: seq<Event>)
    ensures Tally(kind, a + b + c + d) == Tally(kind, a) + Tally(kind, b) + Tally(kind, c) + Tally(kind, d)
  {
    TallyConcat(kind, a + b + c, d);
    TallyConcat(kind, a + b, c);
    TallyConcat(kind, a, b);
  }

  lemma {:induction false} TallySixParts(kind: Event -> bool, a: seq<Event>, b: seq<Event>, c: seq<Event>,
                                         d: seq<Event>, e: seq<Event>, f: seq<Event>)
    ensures Tally(kind, a + b + c + d + e + f)
            == Tally(kind, a) + Tally(kind, b) + Tally(kind, c) + Tally(kind, d) + Tally(kind, e) + Tally(kind, f)
  {
    TallyFourParts(kind, a, b, c, d);
    TallyConcat(kind, a + b + c + d, e);
    TallyConcat(kind, a + b + c + d + e, f);
  }

  lemma {:induction false} TallyNone(kind: Event -> bool, events: seq<Event>)
    requires forall i :: 0 <= i < |events| ==> !kind(events[i])
    ensures Tally(kind, events) == 0
  {
    if events != [] {
      TallyNone(kind, events[..|events| - 1]);
    }
  }

  function Rise(was: bool, isNow: bool): (n: nat) {
    Bit(isNow && !was)
  }

  /** At how many calls of a run a system button comes to be pressed. */
  ghost function Rises(ticks: seq<Tick>, code: nat): (n: nat) {
    if ticks == [] then 0
    else Rises(ticks[..|ticks| - 1], code) + Rise(Down(ticks[..|ticks| - 1], code), Down(ticks, code))
  }

  function HeldRise(was: bool, isNow: bool, held: bool): (n: nat) {
    Bit(isNow && !was && held)
  }

  /** At how many calls a single click comes to be pressed while button 1 is held, which is
      then pressed again after the click. */
  ghost function HeldClicks(ticks: seq<Tick>): (n: nat) {
    if ticks == [] then 0
    else
      var init := ticks[..|ticks| - 1];
      HeldClicks(init) + HeldRise(Down(init, SINGLE_CLICK), Down(ticks, SINGLE_CLICK), Down(init, BUTTON1))
  }

  lemma {:induction false} ClickDowns(was: System, now: System)
    ensures Tally(IsLeftDown, DoubleClick(was, now)) == 2 * Rise(was.doubleClick, now.doubleClick)
    ensures Tally(IsSecondDown, DoubleClick(was, now)) == Rise(was.doubleClick, now.doubleClick)
  {
    TallyFour(IsLeftDown, Left(false, 1), Left(true, 1), Left(false, 1), Left(true, 2));
    TallyFour(IsLeftDown, Left(true, 1), Left(false, 1), Left(true, 2), Left(false, 2));
    TallyFour(IsSecondDown, Left(false, 1), Left(true, 1), Left(false, 1), Left(true, 2));
    TallyFour(IsSecondDown, Left(true, 1), Left(false, 1), Left(true, 2), Left(false, 2));
    TallyOne(IsLeftDown, Left(true, 1));
    TallyOne(IsSecondDown, Left(true, 1));
    hide Tally;
  }

  lemma {:induction false} SingleDowns(was: System, now: System)
    ensures Tally(IsLeftDown, SingleClick(was, now))
            == Rise(was.singleClick, now.singleClick) + HeldRise(was.singleClick, now.singleClick, was.button1)
    ensures Tally(IsSecondDown, SingleClick(was, now)) == 0
  {
    TallyFour(IsLeftDown, Left(false, 1), Left(true, 1), Left(false, 1), Left(true, 1));
    TallyTwo(IsLeftDown, Left(true, 1), Left(false, 1));
    TallyFour(IsSecondDown, Left(false, 1), Left(true, 1), Left(false, 1), Left(true, 1));
    TallyTwo(IsSecondDown, Left(true, 1), Left(false, 1));
    TallyOne(IsLeftDown, Left(true, 1));
    TallyOne(IsSecondDown, Left(true, 1));
    hide Tally;
  }

  lemma {:induction false} PlainDowns(was: System, now: System)
    requires !was.grab
    ensures Tally(IsLeftDown, GrabOrDrop(was, now, false)) == 0 && Tally(IsSecondDown, GrabOrDrop(was, now, false)) == 0
    ensures Tally(IsLeftDown, Button1(was, now, false)) == Rise(was.button1, now.button1)
    ensures Tally(IsLeftDown, EraserTip(was, now)) == Rise(was.eraser, now.eraser)
    ensures Tally(IsLeftDown, Button2(was, now)) == 0 && Tally(IsSecondDown, Button2(was, now)) == 0
    ensures Tally(IsSecondDown, Button1(was, now, false)) == 0 && Tally(IsSecondDown, EraserTip(was, now)) == 0
  {
    TallyOne(IsLeftDown, Left(now.button1, 1));
    TallyOne(IsLeftDown, Left(now.eraser, 1));
    TallyOne(IsLeftDown, Right(now.button2));
    TallyOne(IsSecondDown, Left(now.button1, 1));
    TallyOne(IsSecondDown, Left(now.eraser, 1));
    TallyOne(IsSecondDown, Right(now.button2));
    hide Tally;
  }

  lemma {:induction false} PressesDown(was: System, now: System)
    requires !was.grab
    ensures Tally(IsLeftDown, Presses(was, now, false))
            == Rise(was.button1, now.button1) + Rise(was.eraser, now.eraser)
               + 2 * Rise(was.doubleClick, now.doubleClick)
               + Rise(was.singleClick, now.singleClick) + HeldRise(was.singleClick, now.singleClick, was.button1)
    ensures Tally(IsSecondDown, Presses(was, now, false)) == Rise(was.doubleClick, now.doubleClick)
  {
    ClickDowns(was, now);
    SingleDowns(was, now);
    PlainDowns(was, now);
    hide Tally, DoubleClick, SingleClick, GrabOrDrop, Button1, Button2, EraserTip, Rise, HeldRise;
    TallySixParts(IsLeftDown, DoubleClick(was, now), SingleClick(was, now), GrabOrDrop(was, now, false),
                  Button1(was, now, false), Button2(was, now), EraserTip(was, now));
    TallySixParts(IsSecondDown, DoubleClick(was, now), SingleClick(was, now), GrabOrDrop(was, now, false),
                  Button1(was, now, false), Button2(was, now), EraserTip(was, now));
  }

  lemma {:induction false} RestIsNotLeft(kind: Event -> bool, mem: Memory, t: Tick)
    requires forall e: Event :: kind(e) ==> e.Left?
    ensures Tally(kind, Crossing(mem, t.pen, t.mapping, t.to)) == 0
    ensures Tally(kind, Others(mem.system, SystemOf(t.mapping, t.pen.buttons))) == 0
    ensures Tally(kind, Drift(mem, t.pen, t.mapping, t.to)) == 0
  {
    hide Tally, Presses, MotionKind, Delta, PointerAfter, PosAfterCrossing, SystemOf;
    TallyNone(kind, Crossing(mem, t.pen, t.mapping, t.to));
    TallyNone(kind, Others(mem.system, SystemOf(t.mapping, t.pen.buttons)));
    TallyNone(kind, Drift(mem, t.pen, t.mapping, t.to));
  }

  lemma {:induction false} PostTallies(kind: Event -> bool, mem: Memory, t: Tick)
    requires forall e: Event :: kind(e) ==> e.Left?
    ensures Tally(kind, Post(mem, t.pen, t.mapping, t.to).events)
            == Tally(kind, Presses(mem.system, SystemOf(t.mapping, t.pen.buttons), mem.drag))
  {
    hide Tally, Crossing, Presses, Others, Drift, SystemOf;
    var now := SystemOf(t.mapping, t.pen.buttons);
    RestIsNotLeft(kind, mem, t);
    TallyFourParts(kind, Crossing(mem, t.pen, t.mapping, t.to), Presses(mem.system, now, mem.drag),
                   Others(mem.system, now), Drift(mem, t.pen, t.mapping, t.to));
  }

  /** The downs of a run so far are what the buttons that came to be pressed call for. */
  ghost predicate AllClicks(ticks: seq<Tick>, events: seq<Event>) {
    && Tally(IsLeftDown, events)
       == Rises(ticks, BUTTON1) + Rises(ticks, ERASER) + 2 * Rises(ticks, DOUBLE_CLICK)
          + Rises(ticks, SINGLE_CLICK) + HeldClicks(ticks)
    && Tally(IsSecondDown, events) == Rises(ticks, DOUBLE_CLICK)
  }

  lemma {:induction false} TallyNext(kind: Event -> bool, ticks: seq<Tick>)
    requires ticks != [] && NeverGrabs(ticks) && forall e: Event :: kind(e) ==> e.Left?
    ensures var init := ticks[..|ticks| - 1];
      && !Play(init).memory.system.grab
      && Tally(kind, Play(ticks).events)
         == Tally(kind, Play(init).events)
            + Tally(kind, Presses(Play(init).memory.system, Play(ticks).memory.system, false))
  {
    hide Play, Post, Tally, SystemOf, Presses;
    var k := |ticks| - 1;
    var before, t := Play(ticks[..k]), ticks[k];
    LeftButtonBalances(ticks[..k]);
    PlayNext(ticks, k);
    assert ticks[..k + 1] == ticks;
    SystemOfLast(ticks);
    PostTallies(kind, before.memory, t);
    TallyConcat(kind, before.events, Post(before.memory, t.pen, t.mapping, t.to).events);
  }

  lemma {:induction false} ClicksNext(ticks: seq<Tick>)
    requires ticks != [] && NeverGrabs(ticks)
    requires var init := ticks[..|ticks| - 1]; AllClicks(init, Play(init).events)
    ensures AllClicks(ticks, Play(ticks).events)
  {
    hide Play, Tally, Presses, Rise, HeldRise, Down;
    var init := ticks[..|ticks| - 1];
    TallyNext(IsLeftDown, ticks);
    TallyNext(IsSecondDown, ticks);
    SystemIsDown(init);
    SystemIsDown(ticks);
    PressesDown(Play(init).memory.system, Play(ticks).memory.system);
  }

  /** Over every run without grab/drop no click is lost and none is made up: the left button
      goes down once for each time that button 1, the eraser or a single click comes to be
      pressed, once more for a single click on a held button 1, and twice for a double
      click, the second time with click count two. */
  lemma {:induction false} ClicksArePosted(ticks: seq<Tick>)
    requires NeverGrabs(ticks)
    ensures AllClicks(ticks, Play(ticks).events)
    decreases |ticks|
  {
    if ticks == [] {
      NoClicks();
    } else {
      ClicksArePosted(ticks[..|ticks| - 1]);
      ClicksNext(ticks);
      hide AllClicks;
    }
  }

  lemma {:induction false} NoClicks()
    ensures AllClicks([], Play([]).events)
  {
    TallyOne(IsLeftDown, Left(true, 1));
    TallyOne(IsSecondDown, Left(true, 1));
  }

  // ---- the order of the left button's events ----

  lemma {:induction false} AlternatesTwo(a: bool)
    ensures Alternates(!a, [a, !a]) && Level(!a, [a, !a]) == !a
  {
    assert [a, !a][..1] == [a] && [a][..0] == [];
  }

  lemma {:induction false} AlternatesFour(a: bool)
    ensures Alternates(!a, [a, !a, a, !a]) && Level(!a, [a, !a, a, !a]) == !a
  {
    assert [a, !a, a, !a] == [a, !a] + [a, !a];
    AlternatesTwo(a);
    AlternatesConcat(!a, [a, !a], [a, !a]);
    hide Alternates, Level;
  }

  /** A stretch of events takes the left button from a level to a level, in turns. */
  ghost predicate Turns(was: bool, events: seq<Event>, isNow: bool) {
    Alternates(was, Signal(LeftButton, events)) && Level(was, Signal(LeftButton, events)) == isNow
  }

  lemma {:induction false} TurnsConcat(x: bool, a: seq<Event>, y: bool, b: seq<Event>, z: bool)
    requires Turns(x, a, y) && Turns(y, b, z)
    ensures Turns(x, a + b, z)
  {
    SignalConcat(LeftButton, a, b);
    AlternatesConcat(x, Signal(LeftButton, a), Signal(LeftButton, b));
    hide Signal, Alternates, Level;
  }

  lemma {:induction false} NoTurn(was: bool, events: seq<Event>)
    requires Signal(LeftButton, events) == []
    ensures Turns(was, events, was)
  {
  }

  lemma {:induction false} BurstsTurn(was: System, now: System)
    ensures Turns(was.button1, DoubleClick(was, now), was.button1)
    ensures Turns(was.button1, SingleClick(was, now), was.button1)
  {
    NoTurn(was.button1, []);
    SignalFour(Left(false, 1), Left(true, 1), Left(false, 1), Left(true, 2));
    SignalFour(Left(true, 1), Left(false, 1), Left(true, 2), Left(false, 2));
    SignalFour(Left(false, 1), Left(true, 1), Left(false, 1), Left(true, 1));
    SignalTwo(LeftButton, Left(true, 1), Left(false, 1));
    assert [true] + [false] == [true, false];
    AlternatesFour(false);
    AlternatesFour(true);
    AlternatesTwo(true);
    hide Signal, Alternates, Level;
  }

  lemma {:induction false} Button1Turns(was: System, now: System)
    requires !was.grab
    ensures Turns(was.button1, Button1(was, now, false), now.button1)
  {
    NoTurn(was.button1, []);
    SignalOne(LeftButton, Left(now.button1, 1));
    assert [now.button1][..0] == [];
    hide Signal;
  }

  lemma {:induction false} OthersTurn(was: System, now: System)
    requires !was.grab && !was.eraser && !now.eraser
    ensures Turns(was.button1, GrabOrDrop(was, now, false), was.button1)
    ensures Turns(now.button1, Button2(was, now), now.button1)
    ensures Turns(now.button1, EraserTip(was, now), now.button1)
  {
    Shapes(was, now);
    NoTurn(was.button1, GrabOrDrop(was, now, false));
    NoTurn(now.button1, Button2(was, now));
    NoTurn(now.button1, []);
    hide Turns;
  }

  lemma {:induction false} PressesTurn(was: System, now: System)
    requires !was.grab && !was.eraser && !now.eraser
    ensures Turns(was.button1, Presses(was, now, false), now.button1)
  {
    var a, b := was.button1, now.button1;
    BurstsTurn(was, now);
    Button1Turns(was, now);
    OthersTurn(was, now);
    hide Turns, DoubleClick, SingleClick, GrabOrDrop, Button1, Button2, EraserTip;
    TurnsThree(a, DoubleClick(was, now), SingleClick(was, now), GrabOrDrop(was, now, false));
    TurnsOn(a, b, DoubleClick(was, now) + SingleClick(was, now) + GrabOrDrop(was, now, false),
            Button1(was, now, false), Button2(was, now), EraserTip(was, now));
  }

  lemma {:induction false} TurnsThree(x: bool, a: seq<Event>, b: seq<Event>, c: seq<Event>)
    requires Turns(x, a, x) && Turns(x, b, x) && Turns(x, c, x)
    ensures Turns(x, a + b + c, x)
  {
    TurnsConcat(x, a, x, b, x);
    TurnsConcat(x, a + b, x, c, x);
    hide Turns;
  }

  lemma {:induction false} TurnsOn(x: bool, y: bool, a: seq<Event>, b: seq<Event>, c: seq<Event>, d: seq<Event>)
    requires Turns(x, a, x) && Turns(x, b, y) && Turns(y, c, y) && Turns(y, d, y)
    ensures Turns(x, a + b + c + d, y)
  {
    TurnsConcat(x, a, x, b, y);
    TurnsConcat(x, a + b, y, c, y);
    TurnsConcat(x, a + b + c, y, d, y);
    hide Turns;
  }

  lemma {:induction false} PostTurns(mem: Memory, t: Tick)
    requires !mem.system.grab && !mem.system.eraser && !mem.drag && !t.mapping.Uses(ERASER)
    ensures var r := Post(mem, t.pen, t.mapping, t.to);
      Turns(mem.system.button1, r.events, r.memory.system.button1)
  {
    var now := SystemOf(t.mapping, t.pen.buttons);
    var e0, e1 := Crossing(mem, t.pen, t.mapping, t.to), Presses(mem.system, now, mem.drag);
    var e2, e3 := Others(mem.system, now), Drift(mem, t.pen, t.mapping, t.to);
    Silence(mem, t.pen, t.mapping, t.to);
    PressesTurn(mem.system, now);
    NoTurn(mem.system.button1, e0);
    NoTurn(now.button1, e2);
    NoTurn(now.button1, e3);
    hide Turns, Crossing, Presses, Others, Drift, Signal;
    TurnsOn(mem.system.button1, now.button1, e0, e1, e2, e3);
  }

  /** Neither the eraser nor grab/drop is ever mapped. */
  predicate OnlyClicks(ticks: seq<Tick>) {
    NeverGrabs(ticks) && forall i :: 0 <= i < |ticks| ==> !ticks[i].mapping.Uses(ERASER)
  }

  /** Over every run in which only button 1 and clicks drive the left button, its downs and
      ups strictly alternate, bursts on a held button included, and it is down exactly when
      a pressed button is mapped to button 1. */
  lemma {:induction false} ClicksAlternate(ticks: seq<Tick>)
    requires OnlyClicks(ticks)
    ensures Turns(false, Play(ticks).events, Down(ticks, BUTTON1))
    decreases |ticks|
  {
    hide Play, Post, Turns, Down, SystemOf;
    SystemIsDown(ticks);
    if ticks == [] {
      NoEvents();
    } else {
      var k := |ticks| - 1;
      var before, t := Play(ticks[..k]), ticks[k];
      ClicksAlternate(ticks[..k]);
      SystemIsDown(ticks[..k]);
      LeftButtonBalances(ticks[..k]);
      NoEraser(ticks[..k]);
      PlayNext(ticks, k);
      assert ticks[..k + 1] == ticks;
      PostTurns(before.memory, t);
      TurnsConcat(false, before.events, Down(ticks[..k], BUTTON1),
                  Post(before.memory, t.pen, t.mapping, t.to).events, Down(ticks, BUTTON1));
    }
  }

  lemma {:induction false} NoEvents()
    ensures Turns(false, Play([]).events, false) && !Down([], BUTTON1)
  {
  }

  lemma {:induction false} NoEraser(ticks: seq<Tick>)
    requires OnlyClicks(ticks)
    ensures !Play(ticks).memory.system.eraser
  {
    if ticks != [] {
      SystemOfLast(ticks);
      hide Play;
    }
  }

  // ---- what drags ----

  /** The releases of grab/drop since button 1 was last let go. */
  ghost function Grabs(ticks: seq<Tick>): (n: nat) {
    if ticks == [] then 0
    else
      var init := ticks[..|ticks| - 1];
      if Down(init, BUTTON1) && !Down(ticks, BUTTON1) then 0
      else Grabs(init) + Bit(Down(init, CLICK_OR_RELEASE) && !Down(ticks, CLICK_OR_RELEASE))
  }

  /** A drag is on when grab/drop has been let go an odd number of times since. */
  lemma {:induction false} DragIsOdd(ticks: seq<Tick>)
    ensures Play(ticks).memory.drag <==> Grabs(ticks) % 2 == 1
    decreases |ticks|
  {
    hide Play, Down;
    if ticks == [] {
      NoDrag();
    } else {
      var init := ticks[..|ticks| - 1];
      DragIsOdd(init);
      SystemIsDown(init);
      SystemIsDown(ticks);
      DragNext(ticks);
      Parity(Grabs(init), Down(init, CLICK_OR_RELEASE) && !Down(ticks, CLICK_OR_RELEASE));
    }
  }

  lemma {:induction false} NoDrag()
    ensures !Play([]).memory.drag
  {
  }

  lemma {:induction false} Parity(n: nat, more: bool)
    ensures (n + Bit(more)) % 2 == 1 <==> (n % 2 == 1) != more
  {
  }

  lemma {:induction false} DragNext(ticks: seq<Tick>)
    requires ticks != []
    ensures var was, isNow := Play(ticks[..|ticks| - 1]).memory, Play(ticks).memory;
      isNow.drag == if was.system.button1 && !isNow.system.button1 then false
                    else was.drag != (was.system.grab && !isNow.system.grab)
  {
    hide Crossing, Presses, Others, Drift, SystemOf;
  }

  /** Over every run with only button 1 and grab/drop on the left button and clean releases:
      the left button is down exactly when the last pen presses button 1 or grab/drop has
      been let go an odd number of times since button 1 last was. */
  lemma {:induction false} GrabsTellButtons(ticks: seq<Tick>)
    requires forall i :: 0 <= i < |ticks| ==> GrabsOnly(ticks[i].mapping)
    requires forall k :: 0 <= k < |ticks| ==> CleanTick(ticks, k)
    ensures var s := Signal(LeftButton, Play(ticks).events);
      Alternates(false, s) && (Level(false, s) <==> Down(ticks, BUTTON1) || Grabs(ticks) % 2 == 1)
  {
    CleanRunIsFaithful(ticks, |ticks|);
    assert ticks[..|ticks|] == ticks;
    SystemIsDown(ticks);
    DragIsOdd(ticks);
    hide Play, Signal, Alternates, Level, Down, Grabs, CleanTick;
  }
}
