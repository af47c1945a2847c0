/** Inputs the daemon can receive on which a promise fails whose exact limits are stated
    elsewhere. */
module Failures {
  import opened Bytes
  import opened Framer
  import opened Resync
  import opened ReadLine
  import opened FramersAgree
  import opened Stylus
  import opened StylusRuns
  import opened EndToEnd
  import opened Events
  import opened EventRuns
  import opened Alternation
  import opened Proximity
  import opened Pipeline
  import opened Pointer
  import opened Service
  import Geometry
  import Presets

  // ---- grab and drop ----

  /** A Wacom IV tablet without tilt, in suppressed binary mode. */
  const SETUP := Config(false, true, false, 7)

  /** The tip grabs and drops, and the first side switch is button 1. */
  const GRABBING := Mapping(CLICK_OR_RELEASE, BUTTON1, 0, 0)

  /** The pen arrives with tip and first side switch down. */
  const HELD := Sample(100, 100, 100, true, true, false)

  /** The packet of a pen that leaves. */
  const LIFT: seq<Byte> := [160, 0, 0, 0, 0, 0, 0]

  function HeldThenLift(): (stream: seq<Byte>) {
    EncodeIV(HELD, false) + LIFT
  }

  lemma {:induction false} PacketsOfTheStream()
    ensures Packets(Run(SETUP, IDLE, HeldThenLift()).outs) == [EncodeIV(HELD, false), LIFT]
  {
    var p := EncodeIV(HELD, false);
    var units := [p, LIFT];
    IVFrame(HELD, false);
    assert WellFormed(LIFT);
    hide EncodeIV, Run, Packets, WellFormed;
    FlattenTwo(p, LIFT);
    UnitsGetThrough(SETUP, [], units, []);
    NoGarbage();
    assert [] + Flatten(units) + [] == HeldThenLift();
    assert [] + units == units;
  }

  lemma {:induction false} FlattenTwo(p: seq<Byte>, q: seq<Byte>)
    ensures Flatten([p, q]) == p + q
  {
    assert [p, q][..1] == [p] && [p][..0] == [];
    assert Flatten([p]) == [] + p == p;
  }

  lemma {:induction false} NoGarbage()
    ensures var first := Run(SETUP, IDLE, []); Packets(first.outs + Flush(SETUP, first.state)) == []
  {
  }

  /** First both buttons are pressed, then the pen is gone. */
  lemma {:induction false} PensOfTheStream(mode: Mode)
    requires Plain(mode)
    ensures var pens := Pens(SETUP, WacomIV(mode), HeldThenLift());
      && |pens| == 2
      && !pens[0].offTablet && pens[0].buttons == Buttons(true, true, false, false)
      && pens[1].offTablet && pens[1].buttons == RELEASED
  {
    var proto, p := WacomIV(mode), EncodeIV(HELD, false);
    PacketsOfTheStream();
    FirstPen(mode, AT_REST, HELD);
    LiftIsLift(mode);
    LiftReleases(proto, Decode(proto, AT_REST, p), Wire(LIFT));
    TwoPens(proto, p, LIFT);
    hide EncodeIV, Run, Packets, Decode, DecodeIV;
  }

  lemma {:induction false} FirstPen(mode: Mode, pen: Pen, s: Sample)
    requires Plain(mode) && s.Valid() && s.tip && s.side1 && !s.second && pen.offTablet && !pen.eraserFlag
    ensures var r := Decode(WacomIV(mode), pen, EncodeIV(s, false));
      !r.offTablet && r.buttons == Buttons(true, true, false, false)
  {
    hide EncodeIV, DecodeIV, SecondSwitch, Disengaged;
    FlagBytes(s, false);
    FirstDecides(mode, pen, EncodeIV(s, false));
    ButtonsFollowFlag(mode, pen, s, false);
  }

  lemma {:induction false} LiftIsLift(mode: Mode)
    requires Plain(mode)
    ensures LiftsThePen(WacomIV(mode), Wire(LIFT))
  {
    assert 160 / 32 % 4 == 1;
  }

  lemma {:induction false} TwoPens(proto: Protocol, p: seq<Byte>, q: seq<Byte>)
    ensures var first := Decode(proto, AT_REST, p);
      Trail(proto, AT_REST, [p, q]) == [first, Decode(proto, first, q)]
  {
    hide Decode;
    assert [p, q][..1] == [p] && [p][..0] == [];
    assert Trail(proto, AT_REST, []) == [] && Last([], AT_REST) == AT_REST;
    TrailEnd(proto, AT_REST, [p]);
    TrailEnd(proto, AT_REST, [p, q]);
  }

  /** The two calls, with both buttons down and then none. */
  lemma {:induction false} TicksOfTheStream(mode: Mode, a: Areas)
    requires Plain(mode) && a.tablet.w != 0.0 && a.tablet.h != 0.0
    ensures var ticks := Session(SETUP, WacomIV(mode), a, GRABBING, HeldThenLift());
      && |ticks| == 2 && ticks[0].mapping == ticks[1].mapping == GRABBING
      && !ticks[0].pen.offTablet && ticks[1].pen.offTablet && ticks[1].pen.buttons == RELEASED
      && SystemOf(GRABBING, ticks[0].pen.buttons) == NONE.(button1 := true, grab := true)
      && SystemOf(GRABBING, ticks[1].pen.buttons) == NONE
  {
    PensOfTheStream(mode);
    TicksFollow(a, GRABBING, Pens(SETUP, WacomIV(mode), HeldThenLift()));
    hide Pens, TicksOf;
  }

  lemma {:induction false} FirstCall(ticks: seq<Tick>)
    requires ticks != [] && SystemOf(ticks[0].mapping, ticks[0].pen.buttons) == NONE.(button1 := true, grab := true)
    requires GrabsOnly(ticks[0].mapping)
    ensures var r := Play(ticks[..1]);
      && r.memory.system == NONE.(button1 := true, grab := true) && !r.memory.drag
      && Signal(LeftButton, r.events) == [true]
  {
    PostGrabs(FRESH, ticks[0]);
    PlayNext(ticks, 0);
    assert Play(ticks[..0]) == Posted(FRESH, []);
    assert [] + Post(FRESH, ticks[0].pen, ticks[0].mapping, ticks[0].to).events
           == Post(FRESH, ticks[0].pen, ticks[0].mapping, ticks[0].to).events;
    hide Play, Signal, Crossing, Presses, Others, Drift, SystemOf;
  }

  /** Lifting the pen lets go of grab-or-drop and of button 1 at once: the left button is
      pressed twice in a row. */
  lemma {:induction false} LiftPressesTwice(mode: Mode, a: Areas)
    requires Plain(mode) && a.tablet.w != 0.0 && a.tablet.h != 0.0
    ensures var ticks := Session(SETUP, WacomIV(mode), a, GRABBING, HeldThenLift());
      && Signal(LeftButton, Play(ticks).events) == [true, true, false]
      && !Alternates(false, Signal(LeftButton, Play(ticks).events))
      && !Faithful(ticks)
  {
    var ticks := Session(SETUP, WacomIV(mode), a, GRABBING, HeldThenLift());
    TicksOfTheStream(mode, a);
    FirstCall(ticks);
    SecondCall(ticks);
    NotAlternating();
    hide Session, Play, Signal, Alternates;
  }

  lemma {:induction false} SecondCall(ticks: seq<Tick>)
    requires |ticks| == 2 && GrabsOnly(ticks[1].mapping) && SystemOf(ticks[1].mapping, ticks[1].pen.buttons) == NONE
    requires var r := Play(ticks[..1]);
      && r.memory.system == NONE.(button1 := true, grab := true) && !r.memory.drag
      && Signal(LeftButton, r.events) == [true]
    ensures Signal(LeftButton, Play(ticks).events) == [true, true, false]
  {
    hide Play, Post, Signal, SystemOf, GrabSignal;
    var before, t := Play(ticks[..1]), ticks[1];
    PostGrabs(before.memory, t);
    PlayNext(ticks, 1);
    assert ticks[..1 + 1] == ticks;
    SignalConcat(LeftButton, before.events, Post(before.memory, t.pen, t.mapping, t.to).events);
    SignalOfLift(before.memory.system, SystemOf(t.mapping, t.pen.buttons));
    assert [true] + [true, false] == [true, true, false];
  }

  lemma {:induction false} SignalOfLift(was: System, now: System)
    requires was.button1 && was.grab && !now.button1 && !now.grab
    ensures GrabSignal(was, now, false) == [true, false]
  {
  }

  lemma {:induction false} NotAlternating()
    ensures !Alternates(false, [true, true, false])
  {
    var s := [true, true, false];
    assert s[..2] == [true, true] && [true, true][..1] == [true];
    assert !Alternates(false, [true, true]);
  }

  /** The same lift presses the left button after the proximity leave. */
  lemma {:induction false} LiftPressesOutside(mode: Mode, a: Areas)
    requires Plain(mode) && a.tablet.w != 0.0 && a.tablet.h != 0.0
    ensures !Bracketed(false, Play(Session(SETUP, WacomIV(mode), a, GRABBING, HeldThenLift())).events)
  {
    var ticks := Session(SETUP, WacomIV(mode), a, GRABBING, HeldThenLift());
    TicksOfTheStream(mode, a);
    FirstCall(ticks);
    assert GrabsOnLift(Play(ticks[..1]).memory, ticks[1]);
    assert SettledPens(ticks);
    PressesAreBracketed(ticks);
    hide Session, Play, Bracketed, GrabsOnLift;
  }

  // ---- replies with three commas ----

  /** A model reply: a tilde, three more characters, and three values after commas. */
  const MODEL_REPLY: seq<Byte> := [TILDE, 35, 83, 68, COMMA, 49, COMMA, 50, COMMA, 51]

  lemma {:induction false} ReplyHasThreeCommas()
    ensures Commas(MODEL_REPLY) >= 3
  {
    var a: seq<Byte> := [TILDE, 35, 83, 68];
    hide Commas;
    CommasNext(a, COMMA);
    var b := a + [COMMA];
    CommasNext(b, 49);
    var c := b + [49];
    CommasNext(c, COMMA);
    var d := c + [COMMA];
    CommasNext(d, 50);
    var e := d + [50];
    CommasNext(e, COMMA);
    var f := e + [COMMA];
    CommasNext(f, 51);
    assert MODEL_REPLY == f + [51];
  }

  lemma {:induction false} CutReply(cfg: Config, text: seq<Byte>, nl: Byte)
    requires cfg.Valid() && !cfg.tabletPC && !Uncut(cfg, text) && IsReplyText(text) && IsNewline(nl)
    ensures TakeAll(START, Arrivals(text + [nl])).text == text
    ensures Run(cfg, IDLE, text + [nl]).outs != [Reply(text + [CR])]
  {
    assert Flatten<Byte>([]) == [] && UnitOutputs(cfg, []) == [];
    hide Run, TakeAll, Arrivals, Uncut, IsReplyText, Flatten, UnitOutputs;
    assert [] + (text + [nl]) == text + [nl];
    ReaderReadsLine(cfg, [], text, nl);
    FramersAgreeUnlessCut(cfg, [], text, nl);
    assert [] + [Reply(text + [CR])] == [Reply(text + [CR])];
  }

  /** From a tablet that cannot parse setup strings, ReadLine reads this reply whole and the
      stream framer does not deliver it. */
  lemma {:induction false} ModelReplyIsCut(cfg: Config, nl: Byte)
    requires cfg.Valid() && !cfg.tabletPC && !cfg.parsesSetup && IsNewline(nl)
    ensures TakeAll(START, Arrivals(MODEL_REPLY + [nl])).text == MODEL_REPLY
    ensures Run(cfg, IDLE, MODEL_REPLY + [nl]).outs != [Reply(MODEL_REPLY + [CR])]
  {
    assert IsReplyText(MODEL_REPLY);
    ReplyHasThreeCommas();
    hide Run, TakeAll, Arrivals, Commas, IsReplyText;
    CutReply(cfg, MODEL_REPLY, nl);
  }

  // ---- a report about another preset ----

  /** The whole of a tablet, and its left half, on the same screen. */
  const WHOLE := Geometry.Layout(0, 0, 1000, 800, 0, 0, 1280, 1024, 1, 2, 1, 6, false)
  const HALF := Geometry.Layout(0, 0, 500, 800, 0, 0, 1280, 1024, 1, 2, 1, 6, false)

  const FIRST := Presets.Preset("A", WHOLE, 1280, 1024, 1.0, false)
  const SECOND := Presets.Preset("B", HALF, 1280, 1024, 1.0, false)

  /** The daemon reports the second preset's layout while the first one is active. */
  lemma {:induction false} ReportLosesName(custom: string)
    ensures var s := Presets.Filled([FIRST, SECOND], FIRST, 0);
      var t := Presets.Receive(s, Presets.Report(HALF, 1.0), custom, 1280, 1024);
      && Presets.Consistent(s) && Presets.MenuFits(s)
      && t.presets == [SECOND, SECOND] && t.titles == ["A", "B"] && t.shown == 1
      && !Presets.MenuFits(t)
  {
    hide Presets.Titles, Presets.NamesOf, Presets.Taken;
    var s, r := Presets.Filled([FIRST, SECOND], FIRST, 0), Presets.Report(HALF, 1.0);
    var t := Presets.Receive(s, r, custom, 1280, 1024);
    TwoNames(FIRST, SECOND);
    TwoNames(SECOND, SECOND);
    SecondMatches();
    Presets.ReportChangesActive(s, r, custom, 1280, 1024);
    assert t.presets == [SECOND, SECOND];
    OtherTitles();
  }

  lemma {:induction false} OtherTitles()
    ensures Presets.Titles(["A", "B"]) == ["A", "B"] && Presets.Titles(["B", "B"]) != ["A", "B"]
  {
    assert "A" != "B" && ["A", "B"][0] == "A";
    Presets.TitlesAreNames(["A", "B"]);
    Presets.TitlesOfPrefix(["B", "B"], 1);
    assert ["B", "B"][..1] == ["B"];
    Presets.TitlesAreNames(["B"]);
    assert Presets.Titles(["B", "B"])[..1][0] == "B";
    hide Presets.Titles;
  }

  lemma {:induction false} TwoNames(p: Presets.Preset, q: Presets.Preset)
    ensures Presets.NamesOf([p, q]) == [p.name, q.name]
  {
    assert [p, q][..1] == [p] && [p][..0] == [];
    assert Presets.NamesOf([p]) == [p.name];
  }

  lemma {:induction false} SecondMatches()
    ensures Presets.FirstMatch([FIRST, SECOND], Presets.Report(HALF, 1.0)) == 1
  {
    assert Presets.Matches(SECOND, Presets.Report(HALF, 1.0));
    assert [FIRST, SECOND][1] == SECOND;
  }
}
