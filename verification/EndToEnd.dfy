/** From bytes on the wire to the pen: framing followed by decoding. */
module EndToEnd {
  import opened Arith
  import opened Bytes
  import opened Framer
  import opened Resync
  import opened Stylus
  import opened StylusRuns

  /** The packets handed to ProcessPacket. */
  function Packets(outs: seq<Output>): (packets: seq<seq<Byte>>) {
    if outs == [] then []
    else Packets(outs[..|outs| - 1]) + if outs[|outs| - 1].Packet? then [outs[|outs| - 1].bytes] else []
  }

  lemma {:induction false} PacketsConcat(a: seq<Output>, b: seq<Output>)
    ensures Packets(a + b) == Packets(a) + Packets(b)
    decreases |b|
  {
    if b == [] {
      assert a + b == a;
    } else {
      assert (a + b)[..|a + b| - 1] == a + b[..|b| - 1];
      PacketsConcat(a, b[..|b| - 1]);
    }
  }

  /** The pen after each packet that the framer finds in the stream. */
  function Pens(cfg: Config, proto: Protocol, stream: seq<Byte>): (pens: seq<Pen>) {
    Trail(proto, AT_REST, Packets(Run(cfg, IDLE, stream).outs))
  }

  function Encode(proto: Protocol, tilt: bool, s: Sample): (p: seq<Byte>)
    requires s.Valid()
  {
    if proto.TabletPC? then EncodeTPC(s) else EncodeIV(s, tilt)
  }

  predicate AllValid(samples: seq<Sample>) {
    forall i :: 0 <= i < |samples| ==> samples[i].Valid()
  }

  /** The packets are those of the samples, one for one. The quantifier is only about
      samples whose packet is asked for. */
  ghost predicate Sent(proto: Protocol, tilt: bool, samples: seq<Sample>, packets: seq<seq<Byte>>)
    requires AllValid(samples)
  {
    && |packets| == |samples|
    && forall i {:trigger Encode(proto, tilt, samples[i])} :: 0 <= i < |samples| ==>
         packets[i] == Encode(proto, tilt, samples[i])
  }

  function EncodeAll(proto: Protocol, tilt: bool, samples: seq<Sample>): (packets: seq<seq<Byte>>)
    requires AllValid(samples)
    ensures Sent(proto, tilt, samples, packets)
  {
    hide Encode;
    if samples == [] then []
    else EncodeAll(proto, tilt, samples[..|samples| - 1]) + [Encode(proto, tilt, samples[|samples| - 1])]
  }

  lemma {:induction false} SentAt(proto: Protocol, tilt: bool, samples: seq<Sample>, packets: seq<seq<Byte>>, i: nat)
    requires AllValid(samples) && i < |samples| && Sent(proto, tilt, samples, packets)
    ensures packets[i] == Encode(proto, tilt, samples[i])
  {
    var _ := Encode(proto, tilt, samples[i]);
    hide Encode;
  }

  /** Data packets only: no information reply among them. */
  predicate NoInfo(units: seq<seq<Byte>>) {
    forall i :: 0 <= i < |units| ==> |units[i]| != INFO_SIZE
  }

  /** The pen reports a sample: its position, and while the pen counts as on the tablet
      its tip, first side switch and pressure. */
  predicate Shows(proto: Protocol, pen: Pen, s: Sample) {
    match proto
    case WacomIV(mode) =>
      && pen.x == s.x && pen.y == (if mode.lowerLeft then mode.yscale - s.y else s.y)
      && pen.offTablet == (mode.mouseMode && !(&& mode.left <= pen.x as real <= mode.right
                                               && mode.top <= pen.y as real <= mode.bottom))
      && (!pen.offTablet ==>
            && pen.buttons.side1 == s.side1
            && (pen.buttons.tip || pen.buttons.eraser) == s.tip
            && pen.pressure == if s.tip then Kept(mode, s.press) * 65535 / 254 else 0)
    case TabletPC =>
      && pen.x == s.x && pen.y == s.y
      && !pen.offTablet
      && pen.eraserFlag == s.second
      && pen.buttons == Buttons(s.tip && s.press >= 25, s.side1 && !s.second, false, false)
      && pen.pressure == if s.tip && s.press >= 25 then (s.press - 24) * PRESSURE_SCALE / 231 else 0
  }

  lemma {:induction false} DecodeTakesSize(mode: Mode, pen: Pen, p: seq<Byte>)
    requires Accepted(mode, p)
    ensures var r, d := DecodeIV(mode, pen, p), Lifted(Decode13(mode, pen, p[..7]));
      && r.x == d.x && r.y == d.y && r.offTablet == d.offTablet
      && r.buttons == d.buttons && r.pressure == d.pressure
  {
    if |p| == 7 {
      assert p[..7] == p;
    }
  }

  lemma {:induction false} FirstSeven(s: Sample, tilt: bool)
    requires s.Valid()
    ensures EncodeIV(s, tilt)[..7] == EncodeIV(s, false)
  {
  }

  lemma {:induction false} ButtonBytes(s: Sample)
    requires s.Valid()
    ensures var p := EncodeIV(s, false);
      && (ButtonFlag(p) <==> s.tip || s.side1 || s.second)
      && ButtonBits(p) == Bit(s.tip) + 2 * Bit(s.side1) + 4 * Bit(s.second)
  {
    hide EncodeIV;
    BytesOfIV(s, false);
    HeaderBits(s.tip || s.side1 || s.second, s.x / 16384);
    FourthByteBits(Bit(s.tip) + 2 * Bit(s.side1) + 4 * Bit(s.second), s.press % 2, s.y / 16384);
  }

  lemma {:induction false} ThreeBits(a: bool, b: bool, c: bool)
    ensures var v := Bit(a) + 2 * Bit(b) + 4 * Bit(c);
      (v % 2 == 1 <==> a) && (v / 2 % 2 == 1 <==> b) && (v / 4 % 2 == 1 <==> c)
  {
  }

  lemma {:induction false} IVButtons(pen: Pen, s: Sample)
    requires s.Valid()
    ensures var b := ButtonsIV(pen, EncodeIV(s, false));
      b.side1 == s.side1 && (b.tip || b.eraser) == s.tip
  {
    ButtonBytes(s);
    ThreeBits(s.tip, s.side1, s.second);
  }

  lemma {:induction false} IVShows(mode: Mode, pen: Pen, s: Sample, tilt: bool)
    requires s.Valid() && (tilt ==> mode.hasTilt)
    ensures Shows(WacomIV(mode), DecodeIV(mode, pen, EncodeIV(s, tilt)), s)
  {
    var p := EncodeIV(s, false);
    FirstSeven(s, tilt);
    DecodeTakesSize(mode, pen, EncodeIV(s, tilt));
    IVBytesCarrySample(mode, s, false);
    IVButtons(pen, s);
    IVPressureCarriesSample(mode, s, false);
  }

  lemma {:induction false} TPCPressurePositive(press: nat)
    requires press >= 25
    ensures (press - 24) * PRESSURE_SCALE / 231 > 0
  {
    assert (press - 24) * PRESSURE_SCALE >= 231;
  }

  lemma {:induction false} TPCShows(pen: Pen, s: Sample)
    requires s.Valid()
    ensures Shows(TabletPC, DecodeTPC(pen, EncodeTPC(s)), s)
  {
    TPCBytesCarrySample(s);
    if s.press >= 25 {
      TPCPressurePositive(s.press);
    }
  }

  lemma {:induction false} WrongSizeIgnored(mode: Mode, pen: Pen, p: seq<Byte>)
    requires !Accepted(mode, p)
    ensures DecodeIV(mode, pen, p) == Lifted(pen)
  {
  }

  lemma {:induction false} TrailConcat(proto: Protocol, pen: Pen, a: seq<seq<Byte>>, b: seq<seq<Byte>>)
    ensures Trail(proto, pen, a + b) == Trail(proto, pen, a) + Trail(proto, Last(Trail(proto, pen, a), pen), b)
    decreases |b|
  {
    if b == [] {
      assert a + b == a;
    } else {
      assert (a + b)[..|a + b| - 1] == a + b[..|b| - 1];
      TrailConcat(proto, pen, a, b[..|b| - 1]);
    }
  }

  /** The framer's settings fit the protocol. */
  predicate Matches(cfg: Config, proto: Protocol) {
    && cfg.Valid()
    && cfg.tabletPC == proto.TabletPC?
    && (proto.TabletPC? ==> cfg.packetSize == 9)
    && (proto.WacomIV? && cfg.packetSize == 9 ==> proto.mode.hasTilt)
  }

  lemma {:induction false} SampleFrames(cfg: Config, proto: Protocol, samples: seq<Sample>, units: seq<seq<Byte>>)
    requires Matches(cfg, proto) && AllValid(samples) && Sent(proto, cfg.packetSize == 9, samples, units)
    ensures AllUnits(cfg, units) && NoInfo(units)
  {
    forall i | 0 <= i < |samples| ensures IsUnit(cfg, units[i]) && |units[i]| != INFO_SIZE {
      SentAt(proto, cfg.packetSize == 9, samples, units, i);
      if proto.TabletPC? {
        TPCBytesCarrySample(samples[i]);
      } else {
        IVFrame(samples[i], cfg.packetSize == 9);
      }
    }
  }

  lemma {:induction false} UnitPackets(cfg: Config, units: seq<seq<Byte>>)
    requires NoInfo(units)
    ensures Packets(UnitOutputs(cfg, units)) == units
    decreases |units|
  {
    if units != [] {
      var init := units[..|units| - 1];
      UnitPackets(cfg, init);
      PacketsConcat(UnitOutputs(cfg, init), [Packet(units[|units| - 1])]);
      assert [Packet(units[|units| - 1])][..0] == [];
    }
  }

  lemma {:induction false} TrailShows(proto: Protocol, pen: Pen, tilt: bool, samples: seq<Sample>,
                                      packets: seq<seq<Byte>>, i: nat)
    requires AllValid(samples) && i < |samples| && Sent(proto, tilt, samples, packets)
    requires proto.WacomIV? && tilt ==> proto.mode.hasTilt
    ensures Shows(proto, Trail(proto, pen, packets)[i], samples[i])
  {
    TrailStep(proto, pen, packets, i);
    SentAt(proto, tilt, samples, packets, i);
    var before := if i == 0 then pen else Trail(proto, pen, packets)[i - 1];
    if proto.TabletPC? {
      TPCShows(before, samples[i]);
    } else {
      IVShows(proto.mode, before, samples[i], tilt);
    }
  }

  // ---- eraser or second switch ----

  /** The buttons of a sample, in a session with the eraser or with the tip. */
  function SessionButtons(withEraser: bool, s: Sample): (b: Buttons) {
    if withEraser then Buttons(s.tip && !s.second, s.side1, false, s.tip && s.second)
    else Buttons(s.tip, s.side1, s.second, false)
  }

  lemma {:induction false} ButtonsFollowFlag(mode: Mode, pen: Pen, s: Sample, tilt: bool)
    requires Plain(mode) && s.Valid() && (tilt ==> mode.hasTilt)
    ensures var r := DecodeIV(mode, pen, EncodeIV(s, tilt));
      r.buttons == SessionButtons(r.eraserFlag, s)
  {
    ButtonBytes(s);
    ThreeBits(s.tip, s.side1, s.second);
    FirstSeven(s, tilt);
    IVBytesCarrySample(mode, s, false);
    FlagSeen(mode, pen, EncodeIV(s, tilt));
    hide EncodeIV, Disengaged, ButtonBits, ButtonFlag;
  }

  lemma {:induction false} FlagSeen(mode: Mode, pen: Pen, p: seq<Byte>)
    requires Plain(mode) && Accepted(mode, p) && !Disengaged(p[..7])
    ensures var r := DecodeIV(mode, pen, p);
      r.eraserFlag == EraserSeen(pen, p[..7]) && r.buttons == ButtonsIV(pen, p[..7])
  {
    if |p| == 7 {
      assert p[..7] == p;
    }
  }

  lemma {:induction false} FlagBytes(s: Sample, tilt: bool)
    requires s.Valid()
    ensures !Disengaged(EncodeIV(s, tilt)) && (SecondSwitch(EncodeIV(s, tilt)) <==> s.second)
  {
    IVBytesCarrySample(Mode(true, false, 0, false, false, false, 0.0, 0.0, 0.0, 0.0), s, tilt);
    ThreeBits(s.tip, s.side1, s.second);
    hide EncodeIV, Disengaged, ButtonBits, ButtonFlag;
  }

  /** From the moment the pen arrives, the buttons of every sample are told apart by what
      the first sample said: with its second switch already down the pen is the eraser until
      it leaves, and otherwise that switch is the second side switch. */
  lemma {:induction false} SessionDecidesButtons(mode: Mode, before: seq<seq<Byte>>, tilt: bool, samples: seq<Sample>,
                                                 session: seq<seq<Byte>>, n: nat)
    requires Plain(mode) && AllValid(samples) && (tilt ==> mode.hasTilt) && 1 <= n <= |samples|
    requires Sent(WacomIV(mode), tilt, samples, session)
    requires Last(Trail(WacomIV(mode), AT_REST, before), AT_REST).offTablet
    ensures Last(Trail(WacomIV(mode), AT_REST, before + session[..n]), AT_REST).buttons
            == SessionButtons(samples[0].second, samples[n - 1])
  {
    hide EncodeIV, DecodeIV, Trail, Last, Accepted, Disengaged, SecondSwitch, SessionButtons, Plain;
    var proto := WacomIV(mode);
    SessionIsDown(mode, tilt, samples, session);
    SessionKeepsEraser(mode, before, session, n, Last(Trail(proto, AT_REST, before + session[..n]), AT_REST));
    SentAt(proto, tilt, samples, session, n - 1);
    LastPacket(proto, before, session, n);
    ButtonsFollowFlag(mode, Last(Trail(proto, AT_REST, before + session[..n - 1]), AT_REST), samples[n - 1], tilt);
  }

  lemma {:induction false} SessionIsDown(mode: Mode, tilt: bool, samples: seq<Sample>, session: seq<seq<Byte>>)
    requires AllValid(samples) && (tilt ==> mode.hasTilt) && Sent(WacomIV(mode), tilt, samples, session)
    ensures |session| == |samples|
      && (forall i :: 0 <= i < |session| ==> Accepted(mode, session[i]) && !Disengaged(session[i]))
      && (samples != [] ==> Accepted(mode, session[0]) && (SecondSwitch(session[0]) <==> samples[0].second))
  {
    forall i | 0 <= i < |session|
      ensures Accepted(mode, session[i]) && !Disengaged(session[i]) && (SecondSwitch(session[i]) <==> samples[i].second)
    {
      SentAt(WacomIV(mode), tilt, samples, session, i);
      FlagBytes(samples[i], tilt);
      hide EncodeIV, Disengaged, SecondSwitch;
    }
    hide Disengaged, SecondSwitch;
  }

  lemma {:induction false} LastPacket(proto: Protocol, before: seq<seq<Byte>>, session: seq<seq<Byte>>, n: nat)
    requires 1 <= n <= |session|
    ensures Last(Trail(proto, AT_REST, before + session[..n]), AT_REST)
            == Decode(proto, Last(Trail(proto, AT_REST, before + session[..n - 1]), AT_REST), session[n - 1])
  {
    var all := before + session[..n];
    assert all[..|all| - 1] == before + session[..n - 1] && all[|all| - 1] == session[n - 1];
    hide Decode;
  }

  /** What has to follow the samples: a TabletPC packet is only released by the next header. */
  predicate Closing(proto: Protocol, tail: seq<Byte>) {
    if proto.TabletPC? then |tail| == 1 && IsHeader(tail[0]) else tail == []
  }

  lemma {:induction false} UnitsGetThrough(cfg: Config, garbage: seq<Byte>, units: seq<seq<Byte>>, tail: seq<Byte>)
    requires cfg.Valid() && units != [] && AllUnits(cfg, units)
    requires NoInfo(units)
    requires if cfg.tabletPC then |tail| == 1 && IsHeader(tail[0]) else tail == []
    ensures var first := Run(cfg, IDLE, garbage);
      Packets(Run(cfg, IDLE, garbage + Flatten(units) + tail).outs)
      == Packets(first.outs + Flush(cfg, first.state)) + units
  {
    var first := Run(cfg, IDLE, garbage);
    if cfg.tabletPC {
      assert tail == [tail[0]];
      TrailingHeaderReleases(cfg, garbage, units, tail[0]);
    } else {
      SelfSynchronises(cfg, garbage, units);
      assert garbage + Flatten(units) + tail == garbage + Flatten(units);
      var after := Run(cfg, IDLE, garbage + Flatten(units));
      assert after.outs + Flush(cfg, after.state) == after.outs;
    }
    PacketsConcat(first.outs + Flush(cfg, first.state), UnitOutputs(cfg, units));
    UnitPackets(cfg, units);
  }

  lemma {:induction false} LastPensShow(cfg: Config, proto: Protocol, early: seq<seq<Byte>>, samples: seq<Sample>,
                                        units: seq<seq<Byte>>, i: nat)
    requires Matches(cfg, proto) && AllValid(samples) && i < |samples|
    requires Sent(proto, cfg.packetSize == 9, samples, units)
    ensures Shows(proto, Trail(proto, AT_REST, early + units)[|early| + i], samples[i])
  {
    hide Trail, Shows, Sent;
    SentSize(proto, cfg.packetSize == 9, samples, units);
    TrailConcat(proto, AT_REST, early, units);
    TrailShows(proto, Last(Trail(proto, AT_REST, early), AT_REST), cfg.packetSize == 9, samples, units, i);
  }

  lemma {:induction false} SentSize(proto: Protocol, tilt: bool, samples: seq<Sample>, packets: seq<seq<Byte>>)
    requires AllValid(samples) && Sent(proto, tilt, samples, packets)
    ensures |packets| == |samples|
  {
  }

  /** End to end: whatever garbage came first, the packets of the samples drive the pen one
      by one, in order, and nothing comes between or after them: the i-th sample shows in
      the i-th of the last pens. */
  lemma {:induction false} SamplesDriveThePen(cfg: Config, proto: Protocol, garbage: seq<Byte>, samples: seq<Sample>,
                                              units: seq<seq<Byte>>, tail: seq<Byte>, i: nat)
    requires Matches(cfg, proto) && AllValid(samples) && i < |samples| && Closing(proto, tail)
    requires Sent(proto, cfg.packetSize == 9, samples, units)
    ensures var pens := Pens(cfg, proto, garbage + Flatten(units) + tail);
      |samples| <= |pens| && Shows(proto, pens[|pens| - |samples| + i], samples[i])
  {
    hide Run, Trail, Shows, Packets, Flatten, Sent, Flush;
    var first := Run(cfg, IDLE, garbage);
    var early := Packets(first.outs + Flush(cfg, first.state));
    var stream := garbage + Flatten(units) + tail;
    SentSize(proto, cfg.packetSize == 9, samples, units);
    assert Packets(Run(cfg, IDLE, stream).outs) == early + units by {
      SampleFrames(cfg, proto, samples, units);
      UnitsGetThrough(cfg, garbage, units, tail);
    }
    var pens := Pens(cfg, proto, stream);
    assert pens == Trail(proto, AT_REST, early + units);
    assert |pens| == |early| + |samples|;
    LastPensShow(cfg, proto, early, samples, units, i);
  }

  // ---- the unmasked TabletPC decode ----

  /** On every packet that the framer delivers from any stream, the decode without masks
      gives the coordinates of the data bits. */
  lemma {:induction false} DeliveredIsMasked(cfg: Config, s: seq<Byte>, p: seq<Byte>)
    requires cfg.Valid() && Packet(p) in Run(cfg, IDLE, s).outs && |p| == 9 && IsHeader(p[0])
    ensures XOfTPC(p) == MaskedX(p) && YOfTPC(p) == MaskedY(p)
  {
    DeliversWellFormed(cfg, s, Packet(p));
    hide Run, XOfTPC, YOfTPC, MaskedX, MaskedY;
    UnmaskedIsMasked(p);
  }

  // ---- the wrong packet size ----

  predicate AllSize(packets: seq<seq<Byte>>, size: nat) {
    forall i :: 0 <= i < |packets| ==> |packets[i]| == size
  }

  lemma {:induction false} StepPackets(cfg: Config, st: State, b: Byte)
    requires cfg.Valid() && !cfg.tabletPC && !cfg.iisSet
    ensures AllSize(Packets(Step(cfg, st, b).outs), cfg.packetSize)
  {
    var outs := Step(cfg, st, b).outs;
    assert Packets([]) == [];
    if outs != [] {
      assert outs == [outs[0]] && outs[..0] == [];
      assert Packets(outs) == if outs[0].Packet? then [outs[0].bytes] else [];
    }
    hide Packets, Counts;
  }

  /** Outside ASCII mode every packet of a tablet other than a TabletPC has the one size. */
  lemma {:induction false} PacketsHaveSize(cfg: Config, stream: seq<Byte>)
    requires cfg.Valid() && !cfg.tabletPC && !cfg.iisSet
    ensures AllSize(Packets(Run(cfg, IDLE, stream).outs), cfg.packetSize)
    decreases |stream|
  {
    if stream != [] {
      hide Step, Packets;
      var init, b := stream[..|stream| - 1], stream[|stream| - 1];
      var before := Run(cfg, IDLE, init);
      PacketsHaveSize(cfg, init);
      StepPackets(cfg, before.state, b);
      PacketsConcat(before.outs, Step(cfg, before.state, b).outs);
    }
  }

  ghost predicate AllTaken(proto: Protocol, packets: seq<seq<Byte>>) {
    forall i :: 0 <= i < |packets| ==> Taken(proto, packets[i])
  }

  lemma {:induction false} StepTaken(cfg: Config, st: State, b: Byte)
    requires Matches(cfg, TabletPC) && !cfg.iisSet && Inv(cfg, st)
    ensures AllTaken(TabletPC, Packets(Step(cfg, st, b).outs))
  {
    var outs := Step(cfg, st, b).outs;
    assert Packets([]) == [];
    if outs != [] {
      assert outs == [outs[0]] && outs[..0] == [];
      assert Packets(outs) == if outs[0].Packet? then [outs[0].bytes] else [];
    }
    hide Packets, Counts;
  }

  lemma {:induction false} BothTaken(proto: Protocol, a: seq<seq<Byte>>, b: seq<seq<Byte>>)
    requires AllTaken(proto, a) && AllTaken(proto, b)
    ensures AllTaken(proto, a + b)
  {
    hide Taken;
  }

  lemma {:induction false} TPCPacketsTaken(cfg: Config, stream: seq<Byte>)
    requires Matches(cfg, TabletPC) && !cfg.iisSet
    ensures AllTaken(TabletPC, Packets(Run(cfg, IDLE, stream).outs))
    decreases |stream|
  {
    if stream != [] {
      hide Step, Packets, AllTaken, Inv;
      var init, b := stream[..|stream| - 1], stream[|stream| - 1];
      var before := Run(cfg, IDLE, init);
      TPCPacketsTaken(cfg, init);
      NothingTracked(cfg);
      RunKeepsInv(cfg, IDLE, init);
      StepTaken(cfg, before.state, b);
      PacketsConcat(before.outs, Step(cfg, before.state, b).outs);
      BothTaken(TabletPC, Packets(before.outs), Packets(Step(cfg, before.state, b).outs));
    }
  }

  /** When framer and decoder fit, every packet of every stream is taken. */
  lemma {:induction false} PacketsTaken(cfg: Config, proto: Protocol, stream: seq<Byte>)
    requires Matches(cfg, proto) && !cfg.iisSet
    ensures AllTaken(proto, Packets(Run(cfg, IDLE, stream).outs))
  {
    if proto.TabletPC? {
      TPCPacketsTaken(cfg, stream);
    } else {
      PacketsHaveSize(cfg, stream);
    }
    hide Packets, Run;
  }

  /** Whatever the stream, the motion after each packet is the way travelled since the one
      before. */
  lemma {:induction false} MotionIsTravelled(cfg: Config, proto: Protocol, stream: seq<Byte>, k: nat)
    requires Matches(cfg, proto) && !cfg.iisSet && k < |Pens(cfg, proto, stream)|
    ensures var pens := Pens(cfg, proto, stream);
      MotionOf(pens[k]) == Travelled(proto, if k == 0 then AT_REST else pens[k - 1], pens[k])
  {
    var packets := Packets(Run(cfg, IDLE, stream).outs);
    hide Packets, Run, Decode, Trail;
    PacketsTaken(cfg, proto, stream);
    TrailStep(proto, AT_REST, packets, k);
    var pens := Pens(cfg, proto, stream);
    MotionIsWay(proto, if k == 0 then AT_REST else pens[k - 1], packets[k]);
  }

  lemma {:induction false} RestingTrail(mode: Mode, packets: seq<seq<Byte>>)
    requires forall i :: 0 <= i < |packets| ==> !Accepted(mode, packets[i])
    ensures forall i :: 0 <= i < |packets| ==> Trail(WacomIV(mode), AT_REST, packets)[i] == AT_REST
    decreases |packets|
  {
    hide DecodeIV;
    if packets != [] {
      var init := packets[..|packets| - 1];
      RestingTrail(mode, init);
      assert Last(Trail(WacomIV(mode), AT_REST, init), AT_REST) == AT_REST;
      WrongSizeIgnored(mode, AT_REST, packets[|packets| - 1]);
    }
  }

  /** A Wacom IV tablet set to nine-byte packets whose ROM reports no tilt: no stream of
      bytes at all ever moves the pen, or puts it on the tablet. */
  lemma {:induction false} WrongSizeNeverMoves(cfg: Config, mode: Mode, stream: seq<Byte>)
    requires cfg.Valid() && !cfg.tabletPC && !cfg.iisSet && cfg.packetSize == 9 && !mode.hasTilt
    ensures forall i :: 0 <= i < |Pens(cfg, WacomIV(mode), stream)| ==> Pens(cfg, WacomIV(mode), stream)[i] == AT_REST
  {
    PacketsHaveSize(cfg, stream);
    RestingTrail(mode, Packets(Run(cfg, IDLE, stream).outs));
    hide Packets, Run, Trail;
  }

  /** The i-th sample shows in the i-th of the last pens. */
  ghost predicate GetsThrough(cfg: Config, proto: Protocol, garbage: seq<Byte>, samples: seq<Sample>,
                              units: seq<seq<Byte>>, i: nat)
    requires i < |samples|
  {
    var pens := Pens(cfg, proto, garbage + Flatten(units));
    |samples| <= |pens| && Shows(proto, pens[|pens| - |samples| + i], samples[i])
  }

  lemma {:induction false} RestShowsNothing(mode: Mode, s: Sample)
    requires !mode.mouseMode
    ensures !Shows(WacomIV(mode), AT_REST, s)
  {
  }

  /** Samples of a Wacom IV tablet get through, if and only if its packets have seven bytes
      or its ROM reports tilt. */
  lemma {:induction false} SamplesNeedTheirSize(cfg: Config, mode: Mode, garbage: seq<Byte>, samples: seq<Sample>,
                                                units: seq<seq<Byte>>, i: nat)
    requires cfg.Valid() && !cfg.tabletPC && !cfg.iisSet && !mode.mouseMode
    requires AllValid(samples) && i < |samples| && Sent(WacomIV(mode), cfg.packetSize == 9, samples, units)
    ensures GetsThrough(cfg, WacomIV(mode), garbage, samples, units, i) <==> cfg.packetSize == 7 || mode.hasTilt
  {
    hide Pens, Sent, Flatten, Shows;
    var stream := garbage + Flatten(units);
    assert stream + [] == stream;
    if cfg.packetSize == 7 || mode.hasTilt {
      SamplesDriveThePen(cfg, WacomIV(mode), garbage, samples, units, [], i);
    } else {
      WrongSizeNeverMoves(cfg, mode, stream);
      RestShowsNothing(mode, samples[i]);
    }
  }
}
