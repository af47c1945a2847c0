/** Bytes to packets to pen to events: what holds whatever the tablet sends. */
module Pipeline {
  import opened Bytes
  import opened Framer
  import opened Stylus
  import opened StylusRuns
  import opened EndToEnd
  import opened Events
  import opened EventRuns
  import opened Alternation
  import opened Proximity

  /** A packet from the framer, or the panic button of the preference pane. */
  datatype Input = Wire(packet: seq<Byte>) | Panic

  /** ResetStylus: the pen counts as gone, with everything about it cleared. */
  function ResetPen(pen: Pen): (r: Pen) {
    pen.(offTablet := true, penNear := false, eraserFlag := false, buttons := RELEASED,
         menu := 0, pressure := 0, tiltX := 0, tiltY := 0)
  }

  function React(proto: Protocol, pen: Pen, input: Input): (r: Pen) {
    match input
    case Wire(p) => Decode(proto, pen, p)
    case Panic => ResetPen(pen)
  }

  function Reactions(proto: Protocol, inputs: seq<Input>): (pens: seq<Pen>)
    ensures |pens| == |inputs|
    decreases |inputs|, 1
  {
    if inputs == [] then [] else Reactions(proto, inputs[..|inputs| - 1]) + [LastReaction(proto, inputs)]
  }

  /** The pen after the last input. */
  function LastReaction(proto: Protocol, inputs: seq<Input>): (r: Pen)
    requires inputs != []
    decreases |inputs|, 0
  {
    React(proto, Last(Reactions(proto, inputs[..|inputs| - 1]), AT_REST), inputs[|inputs| - 1])
  }

  lemma {:induction false} RestIsSettled()
    ensures Settled(AT_REST)
  {
  }

  lemma {:induction false} ResetSettles(pen: Pen)
    ensures Settled(ResetPen(pen))
  {
  }

  lemma {:induction false} ReactionsSettled(proto: Protocol, inputs: seq<Input>, i: nat)
    requires i < |inputs|
    ensures Settled(Reactions(proto, inputs)[i])
    decreases |inputs|
  {
    hide Settled, Decode;
    var init := inputs[..|inputs| - 1];
    RestIsSettled();
    if i < |init| {
      ReactionsSettled(proto, init, i);
    } else {
      var pen := Last(Reactions(proto, init), AT_REST);
      if init != [] {
        ReactionsSettled(proto, init, |init| - 1);
      }
      if inputs[i].Wire? {
        DecodeSettles(proto, pen, inputs[i].packet);
      } else {
        ResetSettles(pen);
      }
    }
  }

  /** Inputs after which nothing is pressed. */
  predicate LiftsThePen(proto: Protocol, input: Input) {
    match input
    case Panic => true
    case Wire(p) =>
      if proto.TabletPC? then |p| == 9 && IsHeader(p[0]) && p[0] / 32 % 2 == 0
      else proto.mode.suppressed && Accepted(proto.mode, p) && Disengaged(p)
  }

  lemma {:induction false} LiftReleases(proto: Protocol, pen: Pen, input: Input)
    requires LiftsThePen(proto, input)
    ensures React(proto, pen, input).buttons == RELEASED && React(proto, pen, input).offTablet
    ensures var r := React(proto, pen, input);
      !r.eraserFlag && r.pressure == 0 && (proto.WacomIV? || input.Panic? ==> r.x == pen.x && r.y == pen.y)
  {
    if input.Wire? {
      if proto.WacomIV? {
        IVDeparts(proto.mode, pen, input.packet);
      } else {
        TPCDeparts(pen, input.packet);
      }
    }
    hide DecodeIV, DecodeTPC;
  }

  /** With a Wacom IV tablet the motion after an input is the way travelled on the tablet,
      except that a panic, like a packet that is not taken, repeats the motion before it. */
  lemma {:induction false} MotionAfterInput(mode: Mode, pen: Pen, input: Input)
    ensures var r := React(WacomIV(mode), pen, input);
      MotionOf(r) == Stroke(pen, r)
      <==> (input.Wire? && Accepted(mode, input.packet)) || MotionOf(pen) == (0, 0)
  {
    if input.Wire? {
      IVMotionIsStroke(mode, pen, input.packet);
    }
    hide DecodeIV;
  }

  /** Every packet and every panic is followed by a call of the event generator, with
      whatever mapping and screen position are current. */
  ghost predicate Follows(ticks: seq<Tick>, pens: seq<Pen>) {
    |ticks| == |pens| && forall i :: 0 <= i < |ticks| ==> ticks[i].pen == pens[i]
  }

  /** Every press lies between an enter and a leave, and the left button's downs minus ups
      are what its state says and never negative. */
  ghost predicate Safe(r: Posted) {
    var left := Signal(LeftButton, r.events);
    && Bracketed(false, r.events)
    && NeverNegative(0, left) && Count(0, left) == LeftLevel(r.memory.system)
  }

  /** For every run of packets, however malformed, and panics: presses stay inside the
      proximity brackets, the left button is balanced, and once the pen is lifted or the
      panic button pressed, no button is left down. */
  lemma {:induction false} NoStuckButtons(proto: Protocol, inputs: seq<Input>, ticks: seq<Tick>, r: Posted)
    requires Follows(ticks, Reactions(proto, inputs)) && r == Play(ticks)
    requires NeverGrabs(ticks)
    ensures Safe(r)
    ensures inputs != [] && LiftsThePen(proto, inputs[|inputs| - 1]) ==> AllUp(r.events)
  {
    hide Play, Signal, NeverNegative, Count, Bracketed, AllUp, Decode, Accepted, Disengaged;
    forall i | 0 <= i < |ticks| ensures ticks[i].pen.offTablet ==> ticks[i].pen.buttons == RELEASED {
      ReactionsSettled(proto, inputs, i);
    }
    BracketedWithoutGrab(ticks);
    LeftButtonBalances(ticks);
    if inputs != [] && LiftsThePen(proto, inputs[|inputs| - 1]) {
      var before := Reactions(proto, inputs[..|inputs| - 1]);
      LiftReleases(proto, Last(before, AT_REST), inputs[|inputs| - 1]);
      ReleaseEndsAll(ticks);
    }
  }

  function Wires(packets: seq<seq<Byte>>): (inputs: seq<Input>)
    ensures |inputs| == |packets|
  {
    if packets == [] then [] else Wires(packets[..|packets| - 1]) + [Wire(packets[|packets| - 1])]
  }

  lemma {:induction false} WiresReact(proto: Protocol, packets: seq<seq<Byte>>)
    ensures Reactions(proto, Wires(packets)) == Trail(proto, AT_REST, packets)
    decreases |packets|
  {
    if packets != [] {
      var init := packets[..|packets| - 1];
      assert Wires(packets)[..|packets| - 1] == Wires(init);
      WiresReact(proto, init);
    }
  }

  /** The same from the wire: for every byte stream whatsoever. */
  lemma {:induction false} AnyStreamIsSafe(cfg: Config, proto: Protocol, stream: seq<Byte>, ticks: seq<Tick>, r: Posted)
    requires Follows(ticks, Pens(cfg, proto, stream)) && r == Play(ticks)
    requires NeverGrabs(ticks)
    ensures Safe(r)
  {
    var packets := Packets(Run(cfg, IDLE, stream).outs);
    WiresReact(proto, packets);
    NoStuckButtons(proto, Wires(packets), ticks, r);
  }
}
