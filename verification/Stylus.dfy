/** The stylus record and the two packet decoders, Wacom IV and TabletPC. */
module Stylus {
  import opened Bytes

  /** The pressed stylus buttons: the source's bit mask and its array of booleans. */
  datatype Buttons = Buttons(tip: bool, side1: bool, side2: bool, eraser: bool)

  const RELEASED := Buttons(false, false, false, false)

  datatype Pen = Pen(
    x: int, y: int,
    oldX: int, oldY: int,
    motionX: int, motionY: int,
    tiltX: int, tiltY: int,
    pressure: nat,
    menu: nat,
    offTablet: bool,
    penNear: bool,
    eraserFlag: bool,
    buttons: Buttons)

  /** The pen after InitStylus. */
  const AT_REST := Pen(0, 0, 0, 0, 0, 0, 0, 0, 0, 0, true, false, false, RELEASED)

  /** What the decoders consult besides the packet: transfer mode, origin, tablet height,
      the two thresholds on the ROM version, mouse mode and the mapped tablet area. */
  datatype Mode = Mode(
    suppressed: bool,
    lowerLeft: bool, yscale: int,
    coarse: bool,
    hasTilt: bool,
    mouseMode: bool,
    left: real, top: real, right: real, bottom: real)

  const PRESSURE_SCALE := 65535
  const TILT_SCALE := 32767

  // ---- Wacom IV ----

  /** A 16-bit coordinate from its top two, middle seven and low seven bits. */
  function Coord(hi: int, mid: int, lo: int): (v: int) {
    hi * 16384 + mid * 128 + lo
  }

  predicate Disengaged(p: seq<Byte>)
    requires |p| >= 7
  {
    p[0] / 32 % 4 == 1
  }

  /** The button flag, and the button bits it makes valid. */
  predicate ButtonFlag(p: seq<Byte>)
    requires |p| >= 7
  {
    p[0] / 8 % 2 == 1
  }

  function ButtonBits(p: seq<Byte>): (b: nat)
    requires |p| >= 7
  {
    p[3] / 8 % 16
  }

  /** Button 3 of the Wacom IV button bits: the second side switch or the eraser. */
  predicate SecondSwitch(p: seq<Byte>)
    requires |p| >= 7
  {
    ButtonFlag(p) && ButtonBits(p) / 4 % 2 == 1
  }

  /** The second switch is the eraser if it was already down when the pen arrived. */
  function EraserSeen(pen: Pen, p: seq<Byte>): (flag: bool)
    requires |p| >= 7
  {
    pen.eraserFlag || (SecondSwitch(p) && pen.offTablet)
  }

  function ButtonsIV(pen: Pen, p: seq<Byte>): (b: Buttons)
    requires |p| >= 7
  {
    if !ButtonFlag(p) then RELEASED
    else
      var b, second, flag := ButtonBits(p), SecondSwitch(p), EraserSeen(pen, p);
      var tip, side1 := b % 2 == 1, b / 2 % 2 == 1;
      Buttons(tip && !(second && flag), side1, second && !flag, tip && second && flag)
  }

  function PressureIV(mode: Mode, p: seq<Byte>): (press: nat)
    requires |p| >= 7
  {
    var even := 2 * (p[6] % 64) + 128 * (1 - p[6] / 64 % 2);
    var press := if mode.coarse then even else even + p[3] / 4 % 2;
    if press > 0 then press - 1 else 0
  }

  /** Eight-bit pressure on the system's sixteen-bit scale. */
  function ScaledPressure(press: nat): (scaled: nat) {
    press * PRESSURE_SCALE / 254
  }

  predicate Outbound(mode: Mode, x: int, y: int) {
    mode.mouseMode
    && (x as real < mode.left || x as real > mode.right || y as real < mode.top || y as real > mode.bottom)
  }

  function XOfIV(p: seq<Byte>): (x: int)
    requires |p| >= 7
  {
    Coord(p[0] % 4, p[1] % 128, p[2] % 128)
  }

  function YOfIV(mode: Mode, p: seq<Byte>): (y: int)
    requires |p| >= 7
  {
    var y := Coord(p[3] % 4, p[4] % 128, p[5] % 128);
    if mode.lowerLeft then mode.yscale - y else y
  }

  /** A byte kept in a signed char and then widened to 16 unsigned bits. */
  function Widened(b: Byte): (w: nat) {
    if b < 128 then b else b + 65280
  }

  /** A Wacom IV packet without tilt. */
  function Decode13(mode: Mode, pen: Pen, p: seq<Byte>): (r: Pen)
    requires |p| >= 7
  {
    var gone := Disengaged(p);
    var left := gone && mode.suppressed;
    var x, y := if gone then pen.x else XOfIV(p), if gone then pen.y else YOfIV(mode, p);
    var outbound := Outbound(mode, x, y);
    var off := left || outbound;
    var jump := outbound || pen.offTablet != off;
    var oldX, oldY := if jump then x else pen.x, if jump then y else pen.y;
    Pen(x, y, oldX, oldY, x - oldX, y - oldY,
        if left then 0 else pen.tiltX, if left then 0 else pen.tiltY,
        if gone || outbound then 0 else ScaledPressure(PressureIV(mode, p)),
        if gone then Widened(p[6]) else pen.menu,
        off,
        !off,
        !left && EraserSeen(pen, p),
        if off then RELEASED else ButtonsIV(pen, p))
  }

  /** Division of a scaled tilt, truncating toward zero. */
  function ScaledTilt(b: Byte): (t: int) {
    var raw := b % 64 - 64 * (b / 64 % 2);
    if raw >= 0 then raw * TILT_SCALE / 63 else -(-raw * TILT_SCALE / 63)
  }

  /** A Wacom IV packet from a tablet whose ROM may report tilt. */
  function Decode14(mode: Mode, pen: Pen, p: seq<Byte>): (r: Pen) {
    if |p| == 7 then
      Decode13(mode, pen, p).(tiltX := 0, tiltY := 0)
    else if |p| == 9 then
      Decode13(mode, pen, p[..7]).(tiltX := ScaledTilt(p[7]), tiltY := ScaledTilt(p[8]))
    else
      pen
  }

  /** Without pressure on tip or eraser no pressure is reported. */
  function Lifted(pen: Pen): (r: Pen) {
    if pen.buttons.tip || pen.buttons.eraser then pen else pen.(pressure := 0)
  }

  /** ProcessPacket for the Wacom IV command set. */
  function DecodeIV(mode: Mode, pen: Pen, p: seq<Byte>): (r: Pen) {
    Lifted(if mode.hasTilt then Decode14(mode, pen, p)
           else if |p| == 7 then Decode13(mode, pen, p)
           else pen)
  }

  // ---- TabletPC ----

  /** The value of a byte held in a signed char. */
  function Signed(b: Byte): (c: int) {
    if b < 128 then b else b - 256
  }

  /** Two's complement OR of `hi << 9`, `mid << 2` and a two-bit value: when the middle
      byte is negative its sign bits cover the high byte altogether. */
  function Join(hi: int, mid: int, lo: nat): (v: int)
    requires lo < 4
  {
    if mid >= 0 then hi * 512 + mid * 4 + lo else mid * 4 + lo
  }

  /** The coordinates as the code computes them, without masking the bytes. */
  function XOfTPC(p: seq<Byte>): (x: int)
    requires |p| == 9
  {
    Join(Signed(p[1]), Signed(p[2]), p[6] / 32 % 4)
  }

  function YOfTPC(p: seq<Byte>): (y: int)
    requires |p| == 9
  {
    Join(Signed(p[3]), Signed(p[4]), p[6] / 8 % 4)
  }

  function PressureTPC(p: seq<Byte>): (press: nat)
    requires |p| == 9
  {
    var press := p[6] % 2 * 128 + p[5] % 128;
    if press < 25 then 0 else (press - 24) * PRESSURE_SCALE / 231
  }

  /** One TabletPC packet, before idle pressure is cleared. */
  function ReadTPC(pen: Pen, p: seq<Byte>): (r: Pen)
    requires |p| == 9
  {
    var off := p[0] / 32 % 2 == 0;
    var eraser := p[0] / 4 % 2 == 1;
    var press := if off then 0 else PressureTPC(p);
    var x, y := XOfTPC(p), YOfTPC(p);
    pen.(x := x, y := y, oldX := pen.x, oldY := pen.y,
         motionX := if pen.offTablet != off then 0 else x - pen.x,
         motionY := if pen.offTablet != off then 0 else y - pen.y,
         pressure := press,
         offTablet := off, penNear := !off,
         eraserFlag := !off && eraser,
         buttons := if off then RELEASED
                    else Buttons(press != 0 && p[0] % 2 == 1,
                                 !eraser && p[0] / 2 % 2 == 1,
                                 !eraser && p[0] / 4 % 2 == 1,
                                 false))
  }

  /** ProcessPacket for the TabletPC command set: only binary packets of nine bytes count. */
  function DecodeTPC(pen: Pen, p: seq<Byte>): (r: Pen) {
    Lifted(if |p| == 9 && IsHeader(p[0]) then ReadTPC(pen, p) else pen)
  }

  // ---- the decoders as the source runs them ----

  /** The tablet object, as far as the packet interpreters change it. */
  class Tablet {
    const mode: Mode
    var stylus: Pen

    constructor (mode: Mode)
      ensures this.mode == mode && stylus == AT_REST
    {
      this.mode := mode;
      stylus := AT_REST;
    }

    method SetButtons(b: Buttons)
      modifies this
      ensures stylus == old(stylus).(buttons := b)
    {
      stylus := stylus.(buttons := b);
    }

    method ReadPressure(p: seq<Byte>) returns (press: nat)
      requires |p| == 7
      ensures press == PressureIV(mode, p)
    {
      var low, high := p[6] % 64, 64 * (1 - p[6] / 64 % 2);
      if mode.coarse {
        press := 2 * (low + high);
      } else {
        press := p[3] / 4 % 2 + 2 * low + 2 * high;
      }
      if press > 0 {
        press := press - 1;
      }
    }

    /** What the packet itself says: departure, or a new position with its pressure. */
    method ReadPacketIV(p: seq<Byte>) returns (left: bool, press: nat)
      requires |p| == 7
      modifies this
      ensures left == (Disengaged(p) && mode.suppressed)
      ensures press == if Disengaged(p) then 0 else PressureIV(mode, p)
      ensures var was := old(stylus); var gone := Disengaged(p);
        stylus == was.(oldX := was.x, oldY := was.y,
                       x := if gone then was.x else XOfIV(p), y := if gone then was.y else YOfIV(mode, p),
                       penNear := !left, eraserFlag := !left && was.eraserFlag,
                       tiltX := if left then 0 else was.tiltX, tiltY := if left then 0 else was.tiltY,
                       menu := if gone then Widened(p[6]) else was.menu)
    {
      hide PressureIV, Widened, Coord;
      left, press := false, 0;
      stylus := stylus.(oldX := stylus.x, oldY := stylus.y);
      stylus := stylus.(penNear := true);
      if Disengaged(p) {
        if mode.suppressed {
          stylus := stylus.(penNear := false, eraserFlag := false);
          stylus := stylus.(tiltX := 0, tiltY := 0);
          left := true;
        }
        stylus := stylus.(menu := Widened(p[6]));
      } else {
        stylus := stylus.(x := Coord(p[0] % 4, p[1] % 128, p[2] % 128));
        stylus := stylus.(y := Coord(p[3] % 4, p[4] % 128, p[5] % 128));
        if mode.lowerLeft {
          stylus := stylus.(y := mode.yscale - stylus.y);
        }
        press := ReadPressure(p);
      }
    }

    method ProcessWacomIVBase(p: seq<Byte>)
      requires |p| == 7
      modifies this
      ensures stylus == Decode13(mode, old(stylus), p).(
                buttons := old(stylus.buttons),
                eraserFlag := old(stylus.eraserFlag) && !(Disengaged(p) && mode.suppressed))
    {
      assert ScaledPressure(0) == 0;
      hide PressureIV, ScaledPressure, Outbound, EraserSeen, ButtonsIV, Widened, XOfIV, YOfIV, Disengaged;
      var ot, press := ReadPacketIV(p);
      var outbound := Outbound(mode, stylus.x, stylus.y);
      if outbound {
        stylus := stylus.(penNear := false);
        press := 0;
        ot := true;
      }
      stylus := stylus.(pressure := ScaledPressure(press));
      if outbound || stylus.offTablet != ot {
        stylus := stylus.(oldX := stylus.x, oldY := stylus.y);
      }
      stylus := stylus.(motionX := stylus.x - stylus.oldX);
      stylus := stylus.(motionY := stylus.y - stylus.oldY);
      stylus := stylus.(offTablet := ot);
    }

    method ProcessWacomIV13(p: seq<Byte>)
      modifies this
      ensures stylus == if |p| == 7 then Decode13(mode, old(stylus), p) else old(stylus)
    {
      hide PressureIV, ScaledPressure, Outbound, Widened, Coord;
      if |p| != 7 {
        return;
      }
      var bm := RELEASED;
      if ButtonFlag(p) {
        var b := ButtonBits(p);
        bm := bm.(tip := b % 2 == 1, side1 := b / 2 % 2 == 1);
        if b / 4 % 2 == 1 {
          if stylus.offTablet {
            stylus := stylus.(eraserFlag := true);
          }
          if !stylus.eraserFlag {
            bm := bm.(side2 := true);
          } else if b % 2 == 1 {
            bm := bm.(eraser := true);
            bm := bm.(tip := false);
          }
        }
      }
      ProcessWacomIVBase(p);
      if stylus.offTablet {
        bm := RELEASED;
      }
      SetButtons(bm);
    }

    method ProcessWacomIV14(p: seq<Byte>)
      modifies this
      ensures stylus == Decode14(mode, old(stylus), p)
    {
      if |p| != 7 && |p| != 9 {
        return;
      }
      assert |p| == 7 ==> p[..7] == p;
      ProcessWacomIV13(p[..7]);
      if |p| == 9 {
        stylus := stylus.(tiltX := ScaledTilt(p[7]), tiltY := ScaledTilt(p[8]));
      } else {
        stylus := stylus.(tiltX := 0, tiltY := 0);
      }
    }

    method ProcessTabletPC(p: seq<Byte>)
      modifies this
      ensures stylus == if |p| == 9 then ReadTPC(old(stylus), p) else old(stylus)
    {
      if |p| != 9 {
        return;
      }
      var bm := RELEASED;
      SetButtons(RELEASED);
      stylus := stylus.(oldX := stylus.x, oldY := stylus.y);
      stylus := stylus.(x := Join(Signed(p[1]), Signed(p[2]), p[6] / 32 % 4));
      stylus := stylus.(y := Join(Signed(p[3]), Signed(p[4]), p[6] / 8 % 4));
      var ot := p[0] / 32 % 2 == 0;
      stylus := stylus.(penNear := !ot);
      if ot {
        stylus := stylus.(pressure := 0);
        stylus := stylus.(eraserFlag := false);
      } else {
        stylus := stylus.(eraserFlag := p[0] / 4 % 2 == 1);
        var press := p[6] % 2 * 128 + p[5] % 128;
        press := if press < 25 then 0 else (press - 24) * PRESSURE_SCALE / 231;
        stylus := stylus.(pressure := press);
        if press != 0 {
          bm := bm.(tip := p[0] % 2 == 1);
        }
        if !stylus.eraserFlag {
          bm := bm.(side1 := p[0] / 2 % 2 == 1, side2 := p[0] / 4 % 2 == 1);
        }
      }
      if stylus.offTablet != ot {
        stylus := stylus.(offTablet := ot);
        stylus := stylus.(motionX := 0, motionY := 0);
      } else {
        stylus := stylus.(motionX := stylus.x - stylus.oldX);
        stylus := stylus.(motionY := stylus.y - stylus.oldY);
      }
      SetButtons(bm);
    }

    /** ProcessPacket for the two command sets: dispatch, then clear idle pressure. */
    method ProcessPacket(p: seq<Byte>, tabletPC: bool)
      modifies this
      ensures stylus == if tabletPC then DecodeTPC(old(stylus), p) else DecodeIV(mode, old(stylus), p)
    {
      if tabletPC {
        if p != [] && IsHeader(p[0]) {
          ProcessTabletPC(p);
        }
      } else if mode.hasTilt {
        ProcessWacomIV14(p);
      } else {
        ProcessWacomIV13(p);
      }
      if !(stylus.buttons.tip || stylus.buttons.eraser) {
        stylus := stylus.(pressure := 0);
      }
    }
  }
}
