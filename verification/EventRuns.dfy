/** What holds of the posted events over whole runs. */
module EventRuns {
  import opened Arith
  import opened Stylus
  import opened Events

  /** One call of the event generator. The mapping may change between calls. */
  datatype Tick = Tick(pen: Pen, mapping: Mapping, to: Point)

  function Play(ticks: seq<Tick>): (r: Posted)
    decreases |ticks|, 1
  {
    if ticks == [] then
      Posted(FRESH, [])
    else
      var last := LastCall(ticks);
      Posted(last.memory, Play(ticks[..|ticks| - 1]).events + last.events)
  }

  /** What the last call of a run remembers and posts. */
  function LastCall(ticks: seq<Tick>): (r: Posted)
    requires ticks != []
    decreases |ticks|, 0
  {
    var t := ticks[|ticks| - 1];
    Post(Play(ticks[..|ticks| - 1]).memory, t.pen, t.mapping, t.to)
  }

  lemma {:induction false} PlayNext(ticks: seq<Tick>, k: nat)
    requires k < |ticks|
    ensures var before := Play(ticks[..k]); var t := ticks[k];
      var last := Post(before.memory, t.pen, t.mapping, t.to);
      Play(ticks[..k + 1]) == Posted(last.memory, before.events + last.events)
  {
    assert ticks[..k + 1][..k] == ticks[..k];
  }

  // ---- signals ----

  /** What an event says about one button, or about proximity. */
  datatype Channel = LeftButton | RightButton | OtherButtonOf(n: nat) | Nearness

  function SignalOf(c: Channel, e: Event): (s: seq<bool>) {
    match c
    case LeftButton => if e.Left? then [e.down] else []
    case RightButton => if e.Right? then [e.down] else []
    case OtherButtonOf(n) => if e.Other? && e.button == n then [e.down] else []
    case Nearness => if e.Proximity? then [e.enter] else []
  }

  function Signal(c: Channel, events: seq<Event>): (s: seq<bool>) {
    if events == [] then [] else Signal(c, events[..|events| - 1]) + SignalOf(c, events[|events| - 1])
  }

  lemma {:induction false} SignalConcat(c: Channel, a: seq<Event>, b: seq<Event>)
    ensures Signal(c, a + b) == Signal(c, a) + Signal(c, b)
    decreases |b|
  {
    if b == [] {
      assert a + b == a;
    } else {
      assert (a + b)[..|a + b| - 1] == a + b[..|b| - 1];
      SignalConcat(c, a, b[..|b| - 1]);
    }
  }

  lemma {:induction false} SignalOne(c: Channel, e: Event)
    ensures Signal(c, [e]) == SignalOf(c, e)
  {
    assert [e][..0] == [];
  }

  /** Downs minus ups, starting from a level. */
  function Count(level: int, s: seq<bool>): (n: int) {
    if s == [] then level else Count(level, s[..|s| - 1]) + if s[|s| - 1] then 1 else -1
  }

  predicate NeverNegative(level: int, s: seq<bool>) {
    level >= 0 && (s != [] ==> NeverNegative(level, s[..|s| - 1]) && Count(level, s) >= 0)
  }

  lemma {:induction false} CountSnoc(level: int, s: seq<bool>, d: bool)
    ensures Count(level, s + [d]) == Count(level, s) + if d then 1 else -1
    ensures NeverNegative(level, s + [d]) <==> NeverNegative(level, s) && Count(level, s + [d]) >= 0
  {
    assert (s + [d])[..|s|] == s;
  }

  lemma {:induction false} CountConcat(level: int, a: seq<bool>, b: seq<bool>)
    ensures Count(level, a + b) == Count(Count(level, a), b)
    decreases |b|
  {
    if b == [] {
      assert a + b == a;
    } else {
      assert (a + b)[..|a + b| - 1] == a + b[..|b| - 1];
      CountConcat(level, a, b[..|b| - 1]);
    }
  }

  lemma {:induction false} NeverNegativeConcat(level: int, a: seq<bool>, b: seq<bool>)
    requires NeverNegative(level, a) && NeverNegative(Count(level, a), b)
    ensures NeverNegative(level, a + b)
    decreases |b|
  {
    CountConcat(level, a, b);
    if b == [] {
      assert a + b == a;
    } else {
      assert (a + b)[..|a + b| - 1] == a + b[..|b| - 1];
      NeverNegativeConcat(level, a, b[..|b| - 1]);
    }
  }

  /** The level a strictly alternating signal ends at. */
  function Level(level: bool, s: seq<bool>): (l: bool) {
    if s == [] then level else s[|s| - 1]
  }

  predicate Alternates(level: bool, s: seq<bool>) {
    s != [] ==> Alternates(level, s[..|s| - 1]) && s[|s| - 1] != Level(level, s[..|s| - 1])
  }

  lemma {:induction false} AlternatesConcat(level: bool, a: seq<bool>, b: seq<bool>)
    ensures Alternates(level, a + b) <==> Alternates(level, a) && Alternates(Level(level, a), b)
    ensures Level(level, a + b) == Level(Level(level, a), b)
    decreases |b|
  {
    if b == [] {
      assert a + b == a;
    } else {
      assert (a + b)[..|a + b| - 1] == a + b[..|b| - 1];
      AlternatesConcat(level, a, b[..|b| - 1]);
    }
  }

  // ---- button balance ----

  lemma {:induction false} CountOne(level: int, a: bool)
    requires level >= 0 && (!a ==> level >= 1)
    ensures Count(level, [a]) == level + (if a then 1 else -1) && NeverNegative(level, [a])
  {
    assert [a][..0] == [];
  }

  lemma {:induction false} CountTwo(level: int, a: bool)
    requires level >= 0 && (!a ==> level >= 1)
    ensures Count(level, [a, !a]) == level && NeverNegative(level, [a, !a])
  {
    CountOne(level, a);
    CountSnoc(level, [a], !a);
    assert [a] + [!a] == [a, !a];
  }

  /** A burst of two opposite pairs. */
  lemma {:induction false} CountFour(level: int, a: bool, b: bool)
    requires level >= 0 && (!a || !b ==> level >= 1)
    ensures Count(level, [a, !a, b, !b]) == level && NeverNegative(level, [a, !a, b, !b])
  {
    CountTwo(level, a);
    CountTwo(level, b);
    CountConcat(level, [a, !a], [b, !b]);
    NeverNegativeConcat(level, [a, !a], [b, !b]);
    assert [a, !a] + [b, !b] == [a, !a, b, !b];
  }

  /** A stretch of events is balanced between two levels of the left button. */
  ghost predicate Balanced(before: int, events: seq<Event>, after: int) {
    NeverNegative(before, Signal(LeftButton, events)) && Count(before, Signal(LeftButton, events)) == after
  }

  lemma {:induction false} BalancedConcat(x: int, a: seq<Event>, y: int, b: seq<Event>, z: int)
    requires Balanced(x, a, y) && Balanced(y, b, z)
    ensures Balanced(x, a + b, z)
  {
    SignalConcat(LeftButton, a, b);
    CountConcat(x, Signal(LeftButton, a), Signal(LeftButton, b));
    NeverNegativeConcat(x, Signal(LeftButton, a), Signal(LeftButton, b));
  }

  lemma {:induction false} SignalTwo(c: Channel, d: Event, e: Event)
    ensures Signal(c, [d, e]) == SignalOf(c, d) + SignalOf(c, e)
  {
    assert [d, e] == [d] + [e];
    SignalConcat(c, [d], [e]);
    SignalOne(c, d);
    SignalOne(c, e);
  }

  lemma {:induction false} SignalFour(d: Event, e: Event, f: Event, g: Event)
    requires d.Left? && e.Left? && f.Left? && g.Left?
    ensures Signal(LeftButton, [d, e, f, g]) == [d.down, e.down, f.down, g.down]
  {
    assert [d, e, f, g] == [d, e] + [f, g];
    SignalConcat(LeftButton, [d, e], [f, g]);
    SignalTwo(LeftButton, d, e);
    SignalTwo(LeftButton, f, g);
  }

  lemma {:induction false} FourBalance(d: Event, e: Event, f: Event, g: Event, level: int)
    requires d.Left? && e.Left? && f.Left? && g.Left? && e.down == !d.down && g.down == !f.down
    requires level >= 0 && (!d.down || !f.down ==> level >= 1)
    ensures Balanced(level, [d, e, f, g], level)
  {
    SignalFour(d, e, f, g);
    CountFour(level, d.down, f.down);
    hide Signal, Count, NeverNegative;
  }

  lemma {:induction false} DoubleBalances(was: System, now: System, level: int)
    requires level >= Bit(was.button1)
    ensures Balanced(level, DoubleClick(was, now), level)
  {
    assert Balanced(level, [], level);
    hide Balanced;
    if was.button1 {
      FourBalance(Left(false, 1), Left(true, 1), Left(false, 1), Left(true, 2), level);
    } else {
      FourBalance(Left(true, 1), Left(false, 1), Left(true, 2), Left(false, 2), level);
    }
  }

  lemma {:induction false} SingleBalances(was: System, now: System, level: int)
    requires level >= Bit(was.button1)
    ensures Balanced(level, SingleClick(was, now), level)
  {
    assert Balanced(level, [], level);
    hide Balanced;
    if was.button1 {
      FourBalance(Left(false, 1), Left(true, 1), Left(false, 1), Left(true, 1), level);
    } else {
      ClickBalances(level);
    }
  }

  lemma {:induction false} ClickBalances(level: int)
    requires level >= 0
    ensures Balanced(level, [Left(true, 1), Left(false, 1)], level)
  {
    SignalTwo(LeftButton, Left(true, 1), Left(false, 1));
    assert [true] + [false] == [true, false];
    CountTwo(level, true);
    hide Signal, Count, NeverNegative;
  }

  /** Double- and single-click bursts net to zero and stay above zero throughout. */
  lemma {:induction false} BurstsBalance(was: System, now: System, level: int)
    requires level >= Bit(was.button1)
    ensures Balanced(level, DoubleClick(was, now), level)
    ensures Balanced(level, SingleClick(was, now), level)
  {
    DoubleBalances(was, now, level);
    SingleBalances(was, now, level);
    hide *;
  }

  lemma {:induction false} OnePressBalances(events: seq<Event>, was: bool, isNow: bool, other: int)
    requires other >= 0
    requires events == if was == isNow then [] else [Left(isNow, 1)]
    ensures Balanced(Bit(was) + other, events, Bit(isNow) + other)
  {
    if was != isNow {
      SignalOne(LeftButton, events[0]);
      CountOne(Bit(was) + other, isNow);
    }
  }

  lemma {:induction false} SilentBalances(events: seq<Event>, level: int)
    requires level >= 0 && Signal(LeftButton, events) == []
    ensures Balanced(level, events, level)
  {
  }

  lemma {:induction false} Silence(mem: Memory, pen: Pen, m: Mapping, to: Point)
    ensures var now := SystemOf(m, pen.buttons);
      && Signal(LeftButton, Crossing(mem, pen, m, to)) == []
      && Signal(LeftButton, Button2(mem.system, now)) == []
      && Signal(LeftButton, Others(mem.system, now)) == []
      && Signal(LeftButton, Drift(mem, pen, m, to)) == []
  {
    var now := SystemOf(m, pen.buttons);
    if mem.offTablet != pen.offTablet {
      SignalOne(LeftButton, Crossing(mem, pen, m, to)[0]);
    }
    SignalOne(LeftButton, Right(now.button2));
    if Drift(mem, pen, m, to) != [] {
      SignalOne(LeftButton, Drift(mem, pen, m, to)[0]);
    }
    OthersAreSilent(LeftButton, mem.system, now);
  }

  lemma {:induction false} OthersAreSilent(c: Channel, was: System, now: System)
    requires !c.OtherButtonOf?
    ensures Signal(c, Others(was, now)) == []
  {
    var a, b := OtherButton(2, was.button3, now.button3), OtherButton(3, was.button4, now.button4);
    var d := OtherButton(4, was.button5, now.button5);
    hide Signal, OtherButton;
    SignalConcat(c, a + b, d);
    SignalConcat(c, a, b);
    OtherIsSilent(c, 2, was.button3, now.button3);
    OtherIsSilent(c, 3, was.button4, now.button4);
    OtherIsSilent(c, 4, was.button5, now.button5);
  }

  lemma {:induction false} OtherIsSilent(c: Channel, button: nat, was: bool, isNow: bool)
    requires !c.OtherButtonOf?
    ensures Signal(c, OtherButton(button, was, isNow)) == []
  {
    SignalOne(c, Other(button, isNow));
  }

  /** What the left button's count has to be. */
  function LeftLevel(s: System): (n: int) {
    Bit(s.button1) + Bit(s.eraser)
  }

  /** Four stretches in a row. */
  lemma {:induction false} BalancedFour(x: int, a: seq<Event>, y: int, b: seq<Event>, z: int, c: seq<Event>, w: int,
                                        d: seq<Event>, v: int)
    requires Balanced(x, a, y) && Balanced(y, b, z) && Balanced(z, c, w) && Balanced(w, d, v)
    ensures Balanced(x, a + b + c + d, v)
  {
    BalancedConcat(x, a, y, b, z);
    BalancedConcat(x, a + b, z, c, w);
    BalancedConcat(x, a + b + c, w, d, v);
  }

  lemma {:induction false} BalancedSix(x: int, y: int, z: int, a: seq<Event>, b: seq<Event>, c: seq<Event>,
                    d: seq<Event>, e: seq<Event>, f: seq<Event>)
    requires Balanced(x, a, x) && Balanced(x, b, x) && Balanced(x, c, x) && Balanced(x, d, y)
    requires Balanced(y, e, y) && Balanced(y, f, z)
    ensures Balanced(x, a + b + c + d + e + f, z)
  {
    BalancedFour(x, a, x, b, x, c, x, d, y);
    BalancedConcat(x, a + b + c + d, y, e, y);
    BalancedConcat(x, a + b + c + d + e, y, f, z);
  }

  lemma {:induction false} Shapes(was: System, now: System)
    requires !was.grab
    ensures Signal(LeftButton, GrabOrDrop(was, now, false)) == [] && Signal(LeftButton, Button2(was, now)) == []
  {
    SignalOne(LeftButton, Right(now.button2));
  }

  lemma {:induction false} Button1Balances(was: System, now: System)
    requires !was.grab
    ensures Balanced(LeftLevel(was), Button1(was, now, false), Bit(now.button1) + Bit(was.eraser))
  {
    hide Balanced;
    OnePressBalances(Button1(was, now, false), was.button1, now.button1, Bit(was.eraser));
  }

  lemma {:induction false} EraserBalances(was: System, now: System)
    ensures Balanced(Bit(now.button1) + Bit(was.eraser), EraserTip(was, now), LeftLevel(now))
  {
    hide Balanced;
    OnePressBalances(EraserTip(was, now), was.eraser, now.eraser, Bit(now.button1));
  }

  lemma {:induction false} SinglePresses(was: System, now: System)
    requires !was.grab
    ensures var mid := Bit(now.button1) + Bit(was.eraser);
      && Balanced(LeftLevel(was), GrabOrDrop(was, now, false), LeftLevel(was))
      && Balanced(LeftLevel(was), Button1(was, now, false), mid)
      && Balanced(mid, Button2(was, now), mid)
      && Balanced(mid, EraserTip(was, now), LeftLevel(now))
  {
    Shapes(was, now);
    Button1Balances(was, now);
    EraserBalances(was, now);
    hide Signal, Balanced, GrabOrDrop, Button1, Button2, EraserTip;
    SilentBalances(GrabOrDrop(was, now, false), LeftLevel(was));
    SilentBalances(Button2(was, now), Bit(now.button1) + Bit(was.eraser));
  }

  lemma {:induction false} PressesBalance(was: System, now: System)
    requires !was.grab
    ensures Balanced(LeftLevel(was), Presses(was, now, false), LeftLevel(now))
  {
    BurstsBalance(was, now, LeftLevel(was));
    SinglePresses(was, now);
    BalancedSix(LeftLevel(was), Bit(now.button1) + Bit(was.eraser), LeftLevel(now),
                DoubleClick(was, now), SingleClick(was, now), GrabOrDrop(was, now, false),
                Button1(was, now, false), Button2(was, now), EraserTip(was, now));
  }

  lemma {:induction false} PostBalances(mem: Memory, t: Tick)
    requires !mem.system.grab && !mem.drag && !t.mapping.Uses(CLICK_OR_RELEASE)
    ensures var r := Post(mem, t.pen, t.mapping, t.to);
      && Balanced(LeftLevel(mem.system), r.events, LeftLevel(r.memory.system))
      && !r.memory.system.grab && !r.memory.drag
  {
    var now := SystemOf(t.mapping, t.pen.buttons);
    var a, b := LeftLevel(mem.system), LeftLevel(now);
    var e0, e1 := Crossing(mem, t.pen, t.mapping, t.to), Presses(mem.system, now, mem.drag);
    var e2, e3 := Others(mem.system, now), Drift(mem, t.pen, t.mapping, t.to);
    Silence(mem, t.pen, t.mapping, t.to);
    PressesBalance(mem.system, now);
    SilentBalances(e0, a);
    SilentBalances(e2, b);
    SilentBalances(e3, b);
    BalancedFour(a, e0, a, e1, b, e2, b, e3, b);
  }

  /** Grab/drop is never mapped. */
  predicate NeverGrabs(ticks: seq<Tick>) {
    forall i :: 0 <= i < |ticks| ==> !ticks[i].mapping.Uses(CLICK_OR_RELEASE)
  }

  /** Whole runs in which grab/drop is never mapped, although the mapping may change at
      any time: after every call the left downs minus ups are button 1 plus eraser, and
      at no event is a button released that was not down. */
  lemma {:induction false} LeftButtonBalances(ticks: seq<Tick>)
    requires NeverGrabs(ticks)
    ensures var r := Play(ticks);
      && Balanced(0, r.events, LeftLevel(r.memory.system))
      && !r.memory.system.grab && !r.memory.drag
    decreases |ticks|
  {
    if ticks != [] {
      hide Play, Post, Balanced, LeftLevel;
      var k := |ticks| - 1;
      LeftButtonBalances(ticks[..k]);
      PlayNext(ticks, k);
      assert ticks[..k + 1] == ticks;
      var before := Play(ticks[..k]);
      PostBalances(before.memory, ticks[k]);
      BalancedConcat(0, before.events, LeftLevel(before.memory.system),
                     Post(before.memory, ticks[k].pen, ticks[k].mapping, ticks[k].to).events,
                     LeftLevel(Play(ticks).memory.system));
    }
  }
}
