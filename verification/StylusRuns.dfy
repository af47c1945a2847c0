/** What holds of the pen over whole runs of packets, and what a tablet must send. */
module StylusRuns {
  import opened Arith
  import opened Bytes
  import opened Stylus

  /** The packet protocol of a run. */
  datatype Protocol = WacomIV(mode: Mode) | TabletPC

  function Decode(proto: Protocol, pen: Pen, p: seq<Byte>): (r: Pen) {
    if proto.TabletPC? then DecodeTPC(pen, p) else DecodeIV(proto.mode, pen, p)
  }

  /** The pen after each packet, in order. */
  function Trail(proto: Protocol, pen: Pen, packets: seq<seq<Byte>>): (pens: seq<Pen>)
    ensures |pens| == |packets|
    decreases |packets|, 1
  {
    if packets == [] then []
    else Trail(proto, pen, packets[..|packets| - 1]) + [PenAfter(proto, pen, packets)]
  }

  /** The pen after the last packet. */
  function PenAfter(proto: Protocol, pen: Pen, packets: seq<seq<Byte>>): (r: Pen)
    requires packets != []
    decreases |packets|, 0
  {
    Decode(proto, Last(Trail(proto, pen, packets[..|packets| - 1]), pen), packets[|packets| - 1])
  }

  function Last(pens: seq<Pen>, pen: Pen): (r: Pen) {
    if pens == [] then pen else pens[|pens| - 1]
  }

  lemma {:induction false} TrailStep(proto: Protocol, pen: Pen, packets: seq<seq<Byte>>, i: nat)
    requires i < |packets|
    ensures var pens := Trail(proto, pen, packets);
      pens[i] == Decode(proto, if i == 0 then pen else pens[i - 1], packets[i])
    decreases |packets|
  {
    var init := packets[..|packets| - 1];
    if i < |init| {
      TrailStep(proto, pen, init, i);
    }
  }

  /** Off the tablet nothing is pressed, and the pen is near exactly when it is on. */
  ghost predicate Settled(pen: Pen) {
    && (pen.offTablet ==> pen.buttons == RELEASED)
    && pen.penNear == !pen.offTablet
    && !(pen.buttons.tip && pen.buttons.eraser)
    && !(pen.buttons.side2 && pen.buttons.eraser)
  }

  lemma {:induction false} DecodeSettles(proto: Protocol, pen: Pen, p: seq<Byte>)
    requires Settled(pen)
    ensures Settled(Decode(proto, pen, p))
  {
  }

  /** Every pen of every run, whatever the packets. */
  lemma {:induction false} TrailSettled(proto: Protocol, packets: seq<seq<Byte>>)
    ensures forall i :: 0 <= i < |packets| ==> Settled(Trail(proto, AT_REST, packets)[i])
    decreases |packets|
  {
    if packets != [] {
      var init := packets[..|packets| - 1];
      TrailSettled(proto, init);
      DecodeSettles(proto, Last(Trail(proto, AT_REST, init), AT_REST), packets[|packets| - 1]);
    }
  }

  // ---- eraser sessions ----

  /** A packet size the decoder of this ROM accepts. */
  predicate Accepted(mode: Mode, p: seq<Byte>) {
    |p| == 7 || (mode.hasTilt && |p| == 9)
  }

  predicate Plain(mode: Mode) {
    mode.suppressed && !mode.mouseMode
  }

  /** Off the tablet the eraser flag is clear. */
  lemma {:induction false} OffMeansNoEraser(mode: Mode, packets: seq<seq<Byte>>)
    requires Plain(mode)
    ensures forall i :: 0 <= i < |packets| ==>
              var pen := Trail(WacomIV(mode), AT_REST, packets)[i]; pen.offTablet ==> !pen.eraserFlag
    decreases |packets|
  {
    if packets != [] {
      OffMeansNoEraser(mode, packets[..|packets| - 1]);
    }
  }

  lemma {:induction false} FirstDecides(mode: Mode, pen: Pen, p: seq<Byte>)
    requires Plain(mode) && Accepted(mode, p) && !Disengaged(p)
    ensures var r := DecodeIV(mode, pen, p);
      && !r.offTablet
      && r.eraserFlag == (pen.eraserFlag || (pen.offTablet && SecondSwitch(p)))
  {
  }

  /** From one engagement to the next disengagement the eraser flag is what the first
      packet decided: the eraser if the second switch was already down on arrival. */
  lemma {:induction false} SessionKeepsEraser(mode: Mode, before: seq<seq<Byte>>, session: seq<seq<Byte>>, n: nat,
                                              pen: Pen)
    requires Plain(mode) && 1 <= n <= |session|
    requires forall i :: 0 <= i < |session| ==> Accepted(mode, session[i]) && !Disengaged(session[i])
    requires Last(Trail(WacomIV(mode), AT_REST, before), AT_REST).offTablet
    requires pen == Last(Trail(WacomIV(mode), AT_REST, before + session[..n]), AT_REST)
    ensures Accepted(mode, session[0]) && !pen.offTablet && pen.eraserFlag == SecondSwitch(session[0])
    decreases n
  {
    var all := before + session[..n];
    assert all[..|all| - 1] == before + session[..n - 1];
    assert all[|all| - 1] == session[n - 1];
    var last := Last(Trail(WacomIV(mode), AT_REST, all[..|all| - 1]), AT_REST);
    FirstDecides(mode, last, session[n - 1]);
    if n == 1 {
      assert before + session[..0] == before;
      OffMeansNoEraser(mode, before);
    } else {
      SessionKeepsEraser(mode, before, session, n - 1, last);
    }
  }

  // ---- departure ----

  /** A packet that the decoder takes. */
  predicate Taken(proto: Protocol, p: seq<Byte>) {
    match proto
    case WacomIV(mode) => Accepted(mode, p)
    case TabletPC => |p| == 9 && IsHeader(p[0])
  }

  /** A disengaging Wacom IV packet leaves the pen in its place, without pressure, and tells
      the menu button, sign and all; in suppressed mode it takes the pen off the tablet with
      nothing about it left. An engaging packet keeps the menu button. */
  lemma {:induction false} IVDeparts(mode: Mode, pen: Pen, p: seq<Byte>)
    requires Accepted(mode, p)
    ensures var r := DecodeIV(mode, pen, p);
      && (Disengaged(p) ==>
            && r.x == pen.x && r.y == pen.y && r.pressure == 0
            && r.menu as int == (if p[6] < 128 then p[6] as int else 65536 - 256 + p[6] as int))
      && (Disengaged(p) && mode.suppressed ==>
            && r.offTablet && !r.penNear && !r.eraserFlag && r.buttons == RELEASED
            && (|p| == 7 ==> r.tiltX == 0 && r.tiltY == 0))
      && (!Disengaged(p) ==> r.menu == pen.menu)
      && (|p| == 7 && !mode.hasTilt && !(Disengaged(p) && mode.suppressed) ==>
            r.tiltX == pen.tiltX && r.tiltY == pen.tiltY)
  {
    if |p| == 9 {
      assert p[..7][0] == p[0] && p[..7][6] == p[6];
    }
    hide PressureIV, XOfIV, YOfIV, ScaledTilt, ButtonsIV, EraserSeen;
  }

  /** A TabletPC packet off the tablet leaves nothing of the pen but a place. */
  lemma {:induction false} TPCDeparts(pen: Pen, p: seq<Byte>)
    requires Taken(TabletPC, p) && p[0] / 32 % 2 == 0
    ensures var r := DecodeTPC(pen, p);
      && r.offTablet && !r.penNear && !r.eraserFlag && r.buttons == RELEASED && r.pressure == 0
      && r.tiltX == pen.tiltX && r.tiltY == pen.tiltY && r.menu == pen.menu
  {
    hide XOfTPC, YOfTPC, PressureTPC;
  }

  // ---- motion and tilt ----

  /** The way travelled on the tablet between two packets: none when the pen is off it
      before or after. */
  function Stroke(before: Pen, after: Pen): (way: (int, int)) {
    if before.offTablet || after.offTablet then (0, 0) else (after.x - before.x, after.y - before.y)
  }

  function MotionOf(pen: Pen): (way: (int, int)) {
    (pen.motionX, pen.motionY)
  }

  /** The motion reported after a Wacom IV packet is the way travelled on the tablet, so a
      pen that comes or goes reports none; exactly a packet that is not taken repeats the
      motion before it. */
  lemma {:induction false} IVMotionIsStroke(mode: Mode, pen: Pen, p: seq<Byte>)
    ensures var r := DecodeIV(mode, pen, p);
      MotionOf(r) == Stroke(pen, r) <==> Accepted(mode, p) || MotionOf(pen) == (0, 0)
  {
    hide PressureIV, ScaledPressure, Outbound, XOfIV, YOfIV, Widened, ScaledTilt, ButtonsIV, EraserSeen;
  }

  /** A TabletPC also reports what the pen does off the tablet, but not its coming and going:
      the motion is the way travelled on the tablet exactly unless the pen moved off it. */
  lemma {:induction false} TPCMotionIsStroke(pen: Pen, p: seq<Byte>)
    ensures var r := DecodeTPC(pen, p);
      MotionOf(r) == Stroke(pen, r) <==>
        if Taken(TabletPC, p) then pen.offTablet && r.offTablet ==> r.x == pen.x && r.y == pen.y
        else MotionOf(pen) == (0, 0)
  {
    hide XOfTPC, YOfTPC, PressureTPC;
  }

  /** The way that a protocol reports between two packets. */
  function Travelled(proto: Protocol, before: Pen, after: Pen): (way: (int, int)) {
    if proto.TabletPC? && before.offTablet && after.offTablet then (after.x - before.x, after.y - before.y)
    else Stroke(before, after)
  }

  /** After every packet taken, of either protocol, the motion is that way. */
  lemma {:induction false} MotionIsWay(proto: Protocol, pen: Pen, p: seq<Byte>)
    requires Taken(proto, p)
    ensures MotionOf(Decode(proto, pen, p)) == Travelled(proto, pen, Decode(proto, pen, p))
  {
    if proto.WacomIV? {
      IVMotionIsStroke(proto.mode, pen, p);
      hide DecodeIV;
    } else {
      hide XOfTPC, YOfTPC, PressureTPC;
    }
  }

  /** A packet that keeps the pen on the tablet. */
  predicate KeepsDown(proto: Protocol, p: seq<Byte>) {
    match proto
    case WacomIV(mode) => !mode.mouseMode && Accepted(mode, p) && !Disengaged(p)
    case TabletPC => |p| == 9 && IsHeader(p[0]) && p[0] / 32 % 2 == 1
  }

  lemma {:induction false} StaysDown(proto: Protocol, pen: Pen, p: seq<Byte>)
    requires KeepsDown(proto, p) && !pen.offTablet
    ensures var r := Decode(proto, pen, p);
      !r.offTablet && r.motionX == r.x - pen.x && r.motionY == r.y - pen.y
  {
  }

  function Journey(pens: seq<Pen>): (way: (int, int)) {
    if pens == [] then (0, 0)
    else
      var before, last := Journey(pens[..|pens| - 1]), pens[|pens| - 1];
      (before.0 + last.motionX, before.1 + last.motionY)
  }

  lemma {:induction false} NoPens(proto: Protocol, pen: Pen)
    ensures Trail(proto, pen, []) == [] && Journey([]) == (0, 0) && Last([], pen) == pen
  {
  }

  lemma {:induction false} TrailEnd(proto: Protocol, pen: Pen, packets: seq<seq<Byte>>)
    requires packets != []
    ensures var before := Trail(proto, pen, packets[..|packets| - 1]);
      Trail(proto, pen, packets) == before + [Decode(proto, Last(before, pen), packets[|packets| - 1])]
  {
    hide Decode, Last;
  }

  lemma {:induction false} OneMorePen(pens: seq<Pen>, r: Pen, pen: Pen)
    ensures Journey(pens + [r]) == (Journey(pens).0 + r.motionX, Journey(pens).1 + r.motionY)
    ensures Last(pens + [r], pen) == r
  {
    assert (pens + [r])[..|pens|] == pens;
  }

  /** While the pen stays down, the motions that its packets report add up to the way from
      where it was to where it is. */
  lemma {:induction false} MotionAddsUp(proto: Protocol, pen: Pen, packets: seq<seq<Byte>>)
    requires !pen.offTablet && forall i :: 0 <= i < |packets| ==> KeepsDown(proto, packets[i])
    ensures var pens := Trail(proto, pen, packets); var last := Last(pens, pen);
      !last.offTablet && Journey(pens) == (last.x - pen.x, last.y - pen.y)
    decreases |packets|
  {
    hide Decode, KeepsDown, Journey, Last, Trail;
    if packets == [] {
      NoPens(proto, pen);
    } else {
      TrailEnd(proto, pen, packets);
      var init, p := packets[..|packets| - 1], packets[|packets| - 1];
      var before := Trail(proto, pen, init);
      MotionAddsUp(proto, pen, init);
      StaysDown(proto, Last(before, pen), p);
      OneMorePen(before, Decode(proto, Last(before, pen), p), pen);
    }
  }

  /** A seven-bit tilt value, as sent. */
  function TiltByte(tilt: int): (b: Byte)
    requires -64 <= tilt <= 63
  {
    tilt % 128
  }

  /** Scaled tilt is symmetric and keeps the order of tilts, and it fits sixteen signed bits
      for every tilt but the lowest. */
  lemma {:induction false} TiltScales(a: int, b: int)
    requires -64 <= a <= b <= 63
    ensures ScaledTilt(TiltByte(a)) <= ScaledTilt(TiltByte(b))
    ensures a < b ==> ScaledTilt(TiltByte(a)) < ScaledTilt(TiltByte(b))
    ensures a > -64 ==> ScaledTilt(TiltByte(-a)) == -ScaledTilt(TiltByte(a))
    ensures -32768 <= ScaledTilt(TiltByte(a)) <= 32767 <==> a != -64
  {
    TiltValue(a);
    TiltValue(b);
    if a > -64 {
      TiltValue(-a);
    }
    hide ScaledTilt, TiltByte;
  }

  /** Nine bytes carry the two tilts, from a ROM that reports them; seven bytes clear them. */
  lemma {:induction false} TiltArrives(mode: Mode, pen: Pen, p: seq<Byte>, x: int, y: int)
    requires mode.hasTilt && |p| == 7 && -64 <= x <= 63 && -64 <= y <= 63
    ensures var r := DecodeIV(mode, pen, p + [TiltByte(x), TiltByte(y)]);
      && r.tiltX == (if x >= 0 then x * 32767 / 63 else -(-x * 32767 / 63))
      && r.tiltY == (if y >= 0 then y * 32767 / 63 else -(-y * 32767 / 63))
      && r.(tiltX := 0, tiltY := 0) == DecodeIV(mode, pen, p)
  {
    var q := p + [TiltByte(x), TiltByte(y)];
    assert q[..7] == p && q[7] == TiltByte(x) && q[8] == TiltByte(y);
    TiltValue(x);
    TiltValue(y);
    hide TiltByte, ScaledTilt, Decode13;
  }

  /** Scaled pressure keeps the order of pressures, is full exactly at the full pressure,
      and lies less than one below the exact proportion. */
  lemma {:induction false} PressureScales(a: nat, b: nat)
    requires a <= b
    ensures ScaledPressure(a) <= ScaledPressure(b) && (a < b ==> ScaledPressure(a) < ScaledPressure(b))
    ensures ScaledPressure(0) == 0 && ScaledPressure(254) == 65535
    ensures 0 <= 65535 * a - 254 * ScaledPressure(a) < 254
  {
  }

  lemma {:induction false} TiltValue(a: int)
    requires -64 <= a <= 63
    ensures ScaledTilt(TiltByte(a)) == if a >= 0 then a * TILT_SCALE / 63 else -(-a * TILT_SCALE / 63)
  {
    var b: int := TiltByte(a);
    assert b == if a >= 0 then a else a + 128;
    assert b % 64 - 64 * (b / 64 % 2) == a;
  }

  /** In any mode, the exact case in which a packet leaves the pen off the tablet with its
      eraser flag set: mouse mode finds the eraser outside the mapped area. */
  lemma {:induction false} EraserFlagSurvives(mode: Mode, pen: Pen, p: seq<Byte>)
    requires Accepted(mode, p)
    ensures var r := DecodeIV(mode, pen, p);
      var x, y := if Disengaged(p) then pen.x else XOfIV(p), if Disengaged(p) then pen.y else YOfIV(mode, p);
      r.offTablet && r.eraserFlag <==>
        Outbound(mode, x, y) && EraserSeen(pen, p) && !(Disengaged(p) && mode.suppressed)
  {
    if |p| == 9 {
      assert p[..7][0] == p[0] && p[..7][3] == p[3];
    }
  }

  /** It happens: the eraser lands outside a small mapped area. */
  lemma {:induction false} MouseModeKeepsEraserFlag(mode: Mode, pen: Pen, p: seq<Byte>)
    requires mode.mouseMode && mode.right == 100.0 && |p| == 7 && pen.offTablet
    requires p[0] == 232 && p[1] == 100 && p[2] == 0 && p[3] == 32
    ensures var r := DecodeIV(mode, pen, p); r.offTablet && r.eraserFlag
  {
    assert 232 / 32 % 4 == 3 && 232 % 4 == 0 && 232 / 8 % 2 == 1 && 32 / 8 % 16 == 4 && 4 / 4 % 2 == 1;
    assert !Disengaged(p) && EraserSeen(pen, p);
    assert XOfIV(p) == Coord(0, 100, 0) == 12800;
    EraserFlagSurvives(mode, pen, p);
    hide *;
  }

  /** The comment in the source asks for the TabletPC eraser to be mapped through
      button 2; but that button and the eraser button are never reported in any run. */
  lemma {:induction false} TabletPCNeverReportsSecondSwitch(packets: seq<seq<Byte>>)
    ensures forall i :: 0 <= i < |packets| ==>
              var b := Trail(TabletPC, AT_REST, packets)[i].buttons; !b.side2 && !b.eraser
    decreases |packets|
  {
    if packets != [] {
      TabletPCNeverReportsSecondSwitch(packets[..|packets| - 1]);
    }
  }

  // ---- samples and their packets ----

  /** One report of the pen on the tablet, with raw eight-bit pressure. */
  datatype Sample = Sample(x: nat, y: nat, press: nat, tip: bool, side1: bool, second: bool) {
    predicate Valid() {
      x < 65536 && y < 65536 && press < 256
    }
  }

  /** The seven bytes a Wacom IV tablet sends for a sample, upper-left origin; two more
      carry tilt, here none. */
  function EncodeIV(s: Sample, tilt: bool): (p: seq<Byte>)
    requires s.Valid()
    ensures |p| == if tilt then 9 else 7
  {
    var buttons := Bit(s.tip) + 2 * Bit(s.side1) + 4 * Bit(s.second);
    var first := [(if buttons != 0 then 232 else 224) + s.x / 16384,
                  s.x / 128 % 128,
                  s.x % 128,
                  8 * buttons + 4 * (s.press % 2) + s.y / 16384,
                  s.y / 128 % 128,
                  s.y % 128,
                  s.press / 2 % 64 + 64 * (1 - s.press / 128)];
    if tilt then first + [0, 0] else first
  }

  /** The nine bytes a TabletPC sends for a sample. */
  function EncodeTPC(s: Sample): (p: seq<Byte>)
    requires s.Valid()
    ensures |p| == 9
  {
    [160 + Bit(s.tip) + 2 * Bit(s.side1) + 4 * Bit(s.second),
     s.x / 512, s.x / 4 % 128, s.y / 512, s.y / 4 % 128,
     s.press % 128,
     s.x % 4 * 32 + s.y % 4 * 8 + s.press / 128,
     0, 0]
  }

  lemma {:induction false} CoordParts(v: nat)
    requires v < 65536
    ensures v / 16384 < 4 && Coord(v / 16384, v / 128 % 128, v % 128) == v
  {
    var q := v / 128;
    assert v == 128 * q + v % 128 && q == 128 * (q / 128) + q % 128;
    assert q / 128 == v / 16384;
  }

  lemma {:induction false} HeaderBits(flag: bool, q: nat)
    requires q < 4
    ensures var h := (if flag then 232 else 224) + q;
      128 <= h < 256 && h / 32 % 4 == 3 && h % 4 == q && (h / 8 % 2 == 1 <==> flag)
  {
  }

  lemma {:induction false} FourthByteBits(buttons: nat, low: nat, q: nat)
    requires buttons < 8 && low < 2 && q < 4
    ensures var b := 8 * buttons + 4 * low + q;
      b < 128 && b / 8 % 16 == buttons && b / 4 % 2 == low && b % 4 == q
  {
  }

  lemma {:induction false} BytesOfIV(s: Sample, tilt: bool)
    requires s.Valid()
    ensures var p, buttons := EncodeIV(s, tilt), Bit(s.tip) + 2 * Bit(s.side1) + 4 * Bit(s.second);
      && p[0] == (if buttons != 0 then 232 else 224) + s.x / 16384
      && p[1] == s.x / 128 % 128 && p[2] == s.x % 128
      && p[3] == 8 * buttons + 4 * (s.press % 2) + s.y / 16384
      && p[4] == s.y / 128 % 128 && p[5] == s.y % 128
      && p[6] == s.press / 2 % 64 + 64 * (1 - s.press / 128)
      && (tilt ==> p[7] == 0 && p[8] == 0)
  {
  }

  lemma {:induction false} IVFrame(s: Sample, tilt: bool)
    requires s.Valid()
    ensures WellFormed(EncodeIV(s, tilt))
  {
    BytesOfIV(s, tilt);
  }

  lemma {:induction false} XFromBytes(p: seq<Byte>, x: nat)
    requires |p| >= 7 && x < 65536
    requires p[0] % 4 == x / 16384 && p[1] == x / 128 % 128 && p[2] == x % 128
    ensures XOfIV(p) == x
  {
    CoordParts(x);
    hide Coord;
    assert p[1] % 128 == p[1] && p[2] % 128 == p[2];
  }

  lemma {:induction false} YFromBytes(mode: Mode, p: seq<Byte>, y: nat)
    requires |p| >= 7 && y < 65536
    requires p[3] % 4 == y / 16384 && p[4] == y / 128 % 128 && p[5] == y % 128
    ensures YOfIV(mode, p) == if mode.lowerLeft then mode.yscale - y else y
  {
    CoordParts(y);
    hide Coord;
    assert p[4] % 128 == p[4] && p[5] % 128 == p[5];
  }

  lemma {:induction false} IVBytesCarrySample(mode: Mode, s: Sample, tilt: bool)
    requires s.Valid()
    ensures var p := EncodeIV(s, tilt);
      && !Disengaged(p)
      && XOfIV(p) == s.x && YOfIV(mode, p) == (if mode.lowerLeft then mode.yscale - s.y else s.y)
      && (ButtonFlag(p) <==> s.tip || s.side1 || s.second)
      && ButtonBits(p) == Bit(s.tip) + 2 * Bit(s.side1) + 4 * Bit(s.second)
      && p[3] / 4 % 2 == s.press % 2
  {
    var p, buttons := EncodeIV(s, tilt), Bit(s.tip) + 2 * Bit(s.side1) + 4 * Bit(s.second);
    hide EncodeIV, XOfIV, YOfIV;
    BytesOfIV(s, tilt);
    CoordParts(s.x);
    CoordParts(s.y);
    HeaderBits(buttons != 0, s.x / 16384);
    FourthByteBits(buttons, s.press % 2, s.y / 16384);
    XFromBytes(p, s.x);
    YFromBytes(mode, p, s.y);
  }

  lemma {:induction false} SevenBits(press: nat)
    requires press < 256
    ensures var b := press / 2 % 64 + 64 * (1 - press / 128);
      b < 128 && press % 2 + 2 * (b % 64) + 128 * (1 - b / 64 % 2) == press
  {
    var low, high := press / 2 % 64, 1 - press / 128;
    assert press == 128 * (1 - high) + 2 * low + press % 2;
    assert (low + 64 * high) % 64 == low && (low + 64 * high) / 64 == high;
  }

  /** What a Wacom IV tablet's pressure comes out as: less one, and from the oldest ROMs
      without its lowest bit. */
  function Kept(mode: Mode, press: nat): (kept: nat) {
    var sent := if mode.coarse then press - press % 2 else press;
    if sent > 0 then sent - 1 else 0
  }

  lemma {:induction false} IVPressureCarriesSample(mode: Mode, s: Sample, tilt: bool)
    requires s.Valid()
    ensures PressureIV(mode, EncodeIV(s, tilt)) == Kept(mode, s.press)
  {
    SevenBits(s.press);
    BytesOfIV(s, tilt);
    IVBytesCarrySample(mode, s, tilt);
  }

  lemma {:induction false} JoinParts(v: nat)
    requires v < 65536
    ensures v / 512 < 128 && Join(v / 512, v / 4 % 128, v % 4) == v
  {
  }

  lemma {:induction false} SeventhByteBits(a: nat, b: nat, c: nat)
    requires a < 4 && b < 4 && c < 2
    ensures var v := a * 32 + b * 8 + c;
      v < 128 && v / 32 % 4 == a && v / 8 % 4 == b && v % 2 == c
  {
  }

  lemma {:induction false} TPCHeaderBits(tip: bool, side1: bool, second: bool)
    ensures var h := 160 + Bit(tip) + 2 * Bit(side1) + 4 * Bit(second);
      && h / 32 % 2 == 1 && (h % 2 == 1 <==> tip)
      && (h / 2 % 2 == 1 <==> side1) && (h / 4 % 2 == 1 <==> second)
  {
  }

  lemma {:induction false} TPCBytesCarrySample(s: Sample)
    requires s.Valid()
    ensures var p := EncodeTPC(s);
      && WellFormed(p) && XOfTPC(p) == s.x && YOfTPC(p) == s.y
      && p[0] / 32 % 2 == 1 && p[6] % 2 * 128 + p[5] % 128 == s.press
      && (p[0] % 2 == 1 <==> s.tip) && (p[0] / 2 % 2 == 1 <==> s.side1) && (p[0] / 4 % 2 == 1 <==> s.second)
  {
    JoinParts(s.x);
    JoinParts(s.y);
    SeventhByteBits(s.x % 4, s.y % 4, s.press / 128);
    TPCHeaderBits(s.tip, s.side1, s.second);
  }

  // ---- the unmasked TabletPC decode ----

  /** The coordinates with every byte masked to its data bits. */
  function MaskedX(p: seq<Byte>): (x: int)
    requires |p| == 9
  {
    Join(p[1] % 128, p[2] % 128, p[6] / 32 % 4)
  }

  function MaskedY(p: seq<Byte>): (y: int)
    requires |p| == 9
  {
    Join(p[3] % 128, p[4] % 128, p[6] / 8 % 4)
  }

  /** The decode without masks is right exactly on packets whose coordinate bytes have
      the high bit clear. */
  lemma {:induction false} UnmaskedIsMasked(p: seq<Byte>)
    requires |p| == 9
    ensures XOfTPC(p) == MaskedX(p) <==> !IsHeader(p[1]) && !IsHeader(p[2])
    ensures YOfTPC(p) == MaskedY(p) <==> !IsHeader(p[3]) && !IsHeader(p[4])
  {
    hide Join, Signed;
    JoinMasked(p[1], p[2], p[6] / 32 % 4);
    JoinMasked(p[3], p[4], p[6] / 8 % 4);
  }

  lemma {:induction false} JoinMasked(hi: Byte, mid: Byte, lo: nat)
    requires lo < 4
    ensures Join(Signed(hi), Signed(mid), lo) == Join(hi % 128, mid % 128, lo) <==> !IsHeader(hi) && !IsHeader(mid)
  {
  }
}
