/** The daemon's service from reads to mouse events, as the running objects perform it. */
module Service {
  import opened Bytes
  import opened Framer
  import SerialStream
  import opened Stylus
  import opened StylusRuns
  import opened EndToEnd
  import opened Events
  import opened EventRuns
  import opened Alternation
  import opened Proximity
  import opened Pipeline
  import opened Pointer
  import opened EventPoster
  import opened Arith
  import Clicks

  /** The calls that a list of pens gives rise to: each aims from where the last report was. */
  function TicksOf(a: Areas, m: Mapping, pens: seq<Pen>): (ticks: seq<Tick>)
    requires a.tablet.w != 0.0 && a.tablet.h != 0.0
    ensures |ticks| == |pens|
  {
    if pens == [] then []
    else
      var before, pen := TicksOf(a, m, pens[..|pens| - 1]), pens[|pens| - 1];
      before + [Tick(pen, m, Target(a, pen, Play(before).memory.lastPos))]
  }

  /** The run of a session: the pens of the stream, with the mapping and the areas in force. */
  function Session(cfg: Config, proto: Protocol, a: Areas, m: Mapping, stream: seq<Byte>): (ticks: seq<Tick>)
    requires a.tablet.w != 0.0 && a.tablet.h != 0.0
  {
    TicksOf(a, m, Pens(cfg, proto, stream))
  }

  lemma {:induction false} TicksFollow(a: Areas, m: Mapping, pens: seq<Pen>)
    requires a.tablet.w != 0.0 && a.tablet.h != 0.0
    ensures Follows(TicksOf(a, m, pens), pens) && AllMapped(m, TicksOf(a, m, pens))
    decreases |pens|
  {
    hide TicksOf, Target, Play, Follows, AllMapped;
    if pens == [] {
      NoTicks(a, m);
    } else {
      var init, pen := pens[..|pens| - 1], pens[|pens| - 1];
      var before := TicksOf(a, m, init);
      var t := Tick(pen, m, Target(a, pen, Play(before).memory.lastPos));
      assert init + [pen] == pens;
      TicksFollow(a, m, init);
      TicksSnoc(a, m, init, pen);
      FollowsSnoc(before, init, t, m);
    }
  }

  lemma {:induction false} NoTicks(a: Areas, m: Mapping)
    requires a.tablet.w != 0.0 && a.tablet.h != 0.0
    ensures Follows(TicksOf(a, m, []), []) && AllMapped(m, TicksOf(a, m, []))
  {
  }

  predicate AllMapped(m: Mapping, ticks: seq<Tick>) {
    forall i :: 0 <= i < |ticks| ==> ticks[i].mapping == m
  }

  lemma {:induction false} FollowsSnoc(ticks: seq<Tick>, pens: seq<Pen>, t: Tick, m: Mapping)
    requires Follows(ticks, pens) && AllMapped(m, ticks) && t.mapping == m
    ensures Follows(ticks + [t], pens + [t.pen]) && AllMapped(m, ticks + [t])
  {
  }

  /** Where the pointer is said to be, over a session in absolute mode: always in the mapped
      screen area. */
  lemma {:induction false} ReportsInArea(a: Areas, m: Mapping, pens: seq<Pen>)
    requires !a.mouseMode && Mappable(a)
    ensures AllInArea(a, Reports(Play(TicksOf(a, m, pens)).events))
    decreases |pens|
  {
    hide Target, InArea, AllInArea, Post, Reports, TicksOf, Play;
    if pens == [] {
      NoneInArea(a, m);
    } else {
      var init, pen := pens[..|pens| - 1], pens[|pens| - 1];
      var before := TicksOf(a, m, init);
      var mem := Play(before).memory;
      var t := Tick(pen, m, Target(a, pen, mem.lastPos));
      assert init + [pen] == pens;
      ReportsInArea(a, m, init);
      TargetInside(a, pen, mem.lastPos);
      TicksSnoc(a, m, init, pen);
      PlaySnoc(before, t);
      PostInArea(a, mem, t);
      ReportsConcat(Play(before).events, Post(mem, t.pen, t.mapping, t.to).events);
      BothInArea(a, Reports(Play(before).events), Reports(Post(mem, t.pen, t.mapping, t.to).events));
    }
  }

  lemma {:induction false} NoneInArea(a: Areas, m: Mapping)
    requires a.tablet.w != 0.0 && a.tablet.h != 0.0
    ensures AllInArea(a, Reports(Play(TicksOf(a, m, [])).events))
  {
    hide InArea;
  }

  lemma {:induction false} PostInArea(a: Areas, mem: Memory, t: Tick)
    requires InArea(a, t.to)
    ensures AllInArea(a, Reports(Post(mem, t.pen, t.mapping, t.to).events))
  {
    PostReports(mem, t);
    hide InArea, Post, Reports, Crossing, Drift, Delta, PosAfterCrossing;
  }

  lemma {:induction false} BothInArea(a: Areas, r: seq<Reported>, s: seq<Reported>)
    requires AllInArea(a, r) && AllInArea(a, s)
    ensures AllInArea(a, r + s)
  {
    hide InArea;
  }

  ghost predicate AllInArea(a: Areas, r: seq<Reported>) {
    forall i :: 0 <= i < |r| ==> InArea(a, r[i].to)
  }

  lemma {:induction false} TicksSnoc(a: Areas, m: Mapping, pens: seq<Pen>, pen: Pen)
    requires a.tablet.w != 0.0 && a.tablet.h != 0.0
    ensures var before := TicksOf(a, m, pens);
      TicksOf(a, m, pens + [pen]) == before + [Tick(pen, m, Target(a, pen, Play(before).memory.lastPos))]
  {
    assert (pens + [pen])[..|pens|] == pens;
    hide Target, Play;
  }

  lemma {:induction false} PlaySnoc(ticks: seq<Tick>, t: Tick)
    ensures var before := Play(ticks); var last := Post(before.memory, t.pen, t.mapping, t.to);
      Play(ticks + [t]) == Posted(last.memory, before.events + last.events)
  {
    assert (ticks + [t])[..|ticks|] == ticks;
    hide Post;
  }

  lemma {:induction false} PacketsSnoc(outs: seq<Output>, out: Output)
    ensures Packets(outs + [out]) == Packets(outs) + if out.Packet? then [out.bytes] else []
  {
    assert (outs + [out])[..|outs|] == outs;
  }

  lemma {:induction false} TrailSnoc(proto: Protocol, packets: seq<seq<Byte>>, p: seq<Byte>)
    ensures var pens := Trail(proto, AT_REST, packets);
      Trail(proto, AT_REST, packets + [p]) == pens + [Decode(proto, Last(pens, AT_REST), p)]
  {
    assert (packets + [p])[..|packets|] == packets;
    hide Decode, Last;
  }

  /** The pens after the outputs handled so far. */
  function PensOf(proto: Protocol, outs: seq<Output>): (pens: seq<Pen>) {
    Trail(proto, AT_REST, Packets(outs))
  }

  /** Pen, events, memory and position after the outputs handled so far. */
  ghost predicate Served(proto: Protocol, a: Areas, m: Mapping, pointer: Point, outs: seq<Output>,
                         pen: Pen, posted: seq<Event>, mem: Memory, at: Point)
    requires a.tablet.w != 0.0 && a.tablet.h != 0.0
  {
    var ticks := TicksOf(a, m, PensOf(proto, outs));
    && pen == Last(PensOf(proto, outs), AT_REST)
    && Play(ticks) == Posted(mem, posted)
    && at == if ticks == [] then pointer else ticks[|ticks| - 1].to
  }

  lemma {:induction false} NothingYet(proto: Protocol, a: Areas, m: Mapping, pointer: Point)
    requires a.tablet.w != 0.0 && a.tablet.h != 0.0
    ensures Served(proto, a, m, pointer, [], AT_REST, [], FRESH, pointer)
  {
  }

  lemma {:induction false} OneMoreServed(proto: Protocol, a: Areas, m: Mapping, pointer: Point,
                                         outs: seq<Output>, out: Output,
                                         pen: Pen, posted: seq<Event>, mem: Memory, at: Point,
                                         pen': Pen, posted': seq<Event>, mem': Memory, at': Point)
    requires a.tablet.w != 0.0 && a.tablet.h != 0.0
    requires Served(proto, a, m, pointer, outs, pen, posted, mem, at)
    requires if out.Packet? then
               && pen' == Decode(proto, pen, out.bytes) && at' == Target(a, pen', mem.lastPos)
               && var r := Post(mem, pen', m, at'); posted' == posted + r.events && mem' == r.memory
             else
               pen' == pen && posted' == posted && mem' == mem && at' == at
    ensures Served(proto, a, m, pointer, outs + [out], pen', posted', mem', at')
  {
    hide TicksOf, PensOf, Play, Decode, Post, Target;
    OneMoreOutput(proto, a, m, outs, out);
    if out.Packet? {
      LastTarget(proto, a, m, outs, out);
    }
  }

  lemma {:induction false} ServedAll(cfg: Config, proto: Protocol, a: Areas, m: Mapping, pointer: Point,
                                     stream: seq<Byte>, pen: Pen, posted: seq<Event>, mem: Memory, at: Point)
    requires a.tablet.w != 0.0 && a.tablet.h != 0.0
    requires Served(proto, a, m, pointer, Run(cfg, IDLE, stream).outs, pen, posted, mem, at)
    ensures var ticks := Session(cfg, proto, a, m, stream);
      && Play(ticks) == Posted(mem, posted)
      && at == if ticks == [] then pointer else ticks[|ticks| - 1].to
  {
    SessionPens(cfg, proto, stream);
    hide TicksOf, PensOf, Pens, Play, Run, Last;
  }

  /** What one more output does to the pens and to the events. */
  lemma {:induction false} OneMoreOutput(proto: Protocol, a: Areas, m: Mapping, outs: seq<Output>, out: Output)
    requires a.tablet.w != 0.0 && a.tablet.h != 0.0
    ensures var pens, next := PensOf(proto, outs), PensOf(proto, outs + [out]);
      var before := Play(TicksOf(a, m, pens));
      if out.Packet? then
        var pen := Decode(proto, Last(pens, AT_REST), out.bytes);
        var r := Post(before.memory, pen, m, Target(a, pen, before.memory.lastPos));
        && Last(next, AT_REST) == pen
        && Play(TicksOf(a, m, next)) == Posted(r.memory, before.events + r.events)
      else
        next == pens
  {
    var packets := Packets(outs);
    var pens := PensOf(proto, outs);
    PacketsSnoc(outs, out);
    if out.Packet? {
      var pen := Decode(proto, Last(pens, AT_REST), out.bytes);
      TrailSnoc(proto, packets, out.bytes);
      TicksSnoc(a, m, pens, pen);
      PlaySnoc(TicksOf(a, m, pens), Tick(pen, m, Target(a, pen, Play(TicksOf(a, m, pens)).memory.lastPos)));
      assert Last(pens + [pen], AT_REST) == pen;
    } else {
      assert packets + [] == packets;
    }
    hide Decode, Trail, Packets, TicksOf, Play, Post, Target, Last;
  }

  /** One output: packets move the pen and make it post events, replies do not. */
  method ServeOne(proto: Protocol, tablet: Tablet, poster: Poster, out: Output)
    requires poster.Valid() && (proto.WacomIV? ==> tablet.mode == proto.mode)
    modifies tablet, poster, poster.buttonState, poster.oldButtonState
    ensures poster.Valid() && poster.mapping == old(poster.mapping) && poster.areas == old(poster.areas)
    ensures tablet.stylus == if out.Packet? then Decode(proto, old(tablet.stylus), out.bytes) else old(tablet.stylus)
    ensures poster.scrPos == if out.Packet? then Target(poster.areas, tablet.stylus, old(poster.oldPos))
                             else old(poster.scrPos)
    ensures if out.Packet? then
              var r := Post(old(poster.Remembered()), tablet.stylus, poster.mapping, poster.scrPos);
              poster.posted == old(poster.posted) + r.events && poster.Remembered() == r.memory
            else
              poster.posted == old(poster.posted) && poster.Remembered() == old(poster.Remembered())
  {
    hide Post, Target, DecodeIV, DecodeTPC;
    if out.Packet? {
      tablet.ProcessPacket(out.bytes, proto.TabletPC?);
      poster.stylus := tablet.stylus;
      poster.PostChangeEvents();
    }
  }

  method ServeNext(proto: Protocol, tablet: Tablet, poster: Poster, ghost pointer: Point, outs: seq<Output>, n: nat)
    requires n < |outs| && poster.Valid() && (proto.WacomIV? ==> tablet.mode == proto.mode)
    requires Served(proto, poster.areas, poster.mapping, pointer, outs[..n], tablet.stylus,
                    poster.posted, poster.Remembered(), poster.scrPos)
    modifies tablet, poster, poster.buttonState, poster.oldButtonState
    ensures poster.Valid() && poster.mapping == old(poster.mapping) && poster.areas == old(poster.areas)
    ensures Served(proto, poster.areas, poster.mapping, pointer, outs[..n + 1], tablet.stylus,
                   poster.posted, poster.Remembered(), poster.scrPos)
  {
    hide Served, Post, Target, Decode;
    ghost var pen, posted, mem, at := tablet.stylus, poster.posted, poster.Remembered(), poster.scrPos;
    assert outs[..n + 1] == outs[..n] + [outs[n]];
    ServeOne(proto, tablet, poster, outs[n]);
    OneMoreServed(proto, poster.areas, poster.mapping, pointer, outs[..n], outs[n], pen, posted, mem, at,
                  tablet.stylus, poster.posted, poster.Remembered(), poster.scrPos);
  }

  /** The mapped screen area lies right of the position that looks like none. */
  predicate NeverBlind(a: Areas) {
    Trunc(a.screen.x) + a.boundsX > SHRT_MIN
  }

  lemma {:induction false} AreaIsSighted(a: Areas, r: seq<Reported>)
    requires NeverBlind(a) && AllInArea(a, r)
    ensures Sighted(r)
  {
    hide Trunc;
    forall i | 0 <= i < |r| ensures r[i].to.x != SHRT_MIN {
      assert InArea(a, r[i].to);
      var v: real :| Within(v, a.screen.x, a.screen.w) && r[i].to.x - a.boundsX == Trunc(v);
      TruncMonotone(a.screen.x, v);
    }
  }

  /** What holds of the events of every session, whatever the bytes are: the buttons that
      are down by them are those that the last pen presses, the left one without grab/drop,
      and without it every press lies between an enter and a leave; every other channel
      alternates; in absolute mode every position reported lies in the mapped
      screen area; and the deltas add up, in absolute mode without any loss. */
  lemma {:induction false} SessionIsSafe(cfg: Config, proto: Protocol, a: Areas, m: Mapping, stream: seq<Byte>)
    requires a.tablet.w != 0.0 && a.tablet.h != 0.0
    ensures Follows(Session(cfg, proto, a, m, stream), Pens(cfg, proto, stream))
    ensures var r := Play(Session(cfg, proto, a, m, stream));
      && Channelled(r) && AddsUp(r)
      && Clicks.TellsOthers(Session(cfg, proto, a, m, stream), r.events)
      && (!m.Uses(CLICK_OR_RELEASE) ==>
            Safe(r) && Clicks.TellsLeft(Session(cfg, proto, a, m, stream), r.events))
      && (!a.mouseMode && Mappable(a) ==> AllInArea(a, Reports(r.events)))
      && (!a.mouseMode && Mappable(a) && NeverBlind(a) ==> AddsUpFully(r))
  {
    var pens := Pens(cfg, proto, stream);
    TicksFollow(a, m, pens);
    RunIsChannelled(TicksOf(a, m, pens));
    MotionTelescopes(TicksOf(a, m, pens));
    Clicks.EventsTellButtons(TicksOf(a, m, pens));
    if !a.mouseMode && Mappable(a) {
      ReportsInArea(a, m, pens);
      if NeverBlind(a) {
        AreaIsSighted(a, Reports(Play(TicksOf(a, m, pens)).events));
      }
    }
    if !m.Uses(CLICK_OR_RELEASE) {
      AnyStreamIsSafe(cfg, proto, stream, TicksOf(a, m, pens), Play(TicksOf(a, m, pens)));
    }
    hide *;
  }

  // ---- from samples to the screen ----

  /** From the samples of a session to the buttons: after each of them the left and the
      right button are down by the events posted as the sample's own buttons say, with the
      eraser told from the second switch by the first sample. */
  lemma {:induction false} SamplesPressButtons(mode: Mode, a: Areas, m: Mapping, before: seq<seq<Byte>>, tilt: bool,
                                               samples: seq<Sample>, session: seq<seq<Byte>>, n: nat)
    requires Plain(mode) && AllValid(samples) && (tilt ==> mode.hasTilt) && 1 <= n <= |samples|
    requires Sent(WacomIV(mode), tilt, samples, session)
    requires Last(Trail(WacomIV(mode), AT_REST, before), AT_REST).offTablet
    requires a.tablet.w != 0.0 && a.tablet.h != 0.0 && !m.Uses(CLICK_OR_RELEASE)
    ensures n <= |session|
    ensures var events := Play(TicksOf(a, m, Trail(WacomIV(mode), AT_REST, before + session[..n]))).events;
      var b := SessionButtons(samples[0].second, samples[n - 1]);
      && Count(0, Signal(LeftButton, events))
         == Bit(Clicks.Pressing(m, b, BUTTON1)) + Bit(Clicks.Pressing(m, b, ERASER))
      && Level(false, Signal(RightButton, events)) == Clicks.Pressing(m, b, BUTTON2)
  {
    hide Trail, Sent, TicksOf, SessionButtons, Play, Signal, Count, Level, Clicks.Pressing;
    SentSize(WacomIV(mode), tilt, samples, session);
    SessionDecidesButtons(mode, before, tilt, samples, session, n);
    var pens := Trail(WacomIV(mode), AT_REST, before + session[..n]);
    TicksFollow(a, m, pens);
    Clicks.EventsTellButtons(TicksOf(a, m, pens));
  }

  /** The screen point of a tablet position in absolute mode. */
  function ScreenPoint(a: Areas, x: int, y: int): (to: Point)
    requires a.tablet.w != 0.0 && a.tablet.h != 0.0
  {
    Point(Trunc(Absolute(x as real, a.tablet.x, a.tablet.w, a.screen.x, a.screen.w)) + a.boundsX,
          Trunc(Absolute(y as real, a.tablet.y, a.tablet.h, a.screen.y, a.screen.h)) + a.boundsY)
  }

  /** A sample's height from the origin in force. */
  function HeightOf(proto: Protocol, s: Sample): (y: int) {
    if proto.WacomIV? && proto.mode.lowerLeft then proto.mode.yscale - s.y else s.y
  }

  lemma {:induction false} TicksAim(a: Areas, m: Mapping, pens: seq<Pen>, k: nat)
    requires a.tablet.w != 0.0 && a.tablet.h != 0.0 && !a.mouseMode && k < |pens|
    ensures TicksOf(a, m, pens)[k].to == ScreenPoint(a, pens[k].x, pens[k].y)
    decreases |pens|
  {
    hide Absolute, Trunc, Play;
    if k < |pens| - 1 {
      TicksAim(a, m, pens[..|pens| - 1], k);
    }
  }

  lemma {:induction false} ShownAt(proto: Protocol, pen: Pen, s: Sample)
    requires Shows(proto, pen, s)
    ensures pen.x == s.x && pen.y == HeightOf(proto, s)
  {
  }

  /** From the wire to the screen in absolute mode: whatever garbage came first, the i-th
      sample aims the i-th of the last calls at its own screen point. */
  lemma {:induction false} SamplesAimThePointer(cfg: Config, proto: Protocol, a: Areas, m: Mapping,
                                                garbage: seq<Byte>, samples: seq<Sample>, units: seq<seq<Byte>>,
                                                tail: seq<Byte>, i: nat)
    requires Matches(cfg, proto) && AllValid(samples) && i < |samples| && Closing(proto, tail)
    requires Sent(proto, cfg.packetSize == 9, samples, units)
    requires a.tablet.w != 0.0 && a.tablet.h != 0.0 && !a.mouseMode
    ensures var ticks := Session(cfg, proto, a, m, garbage + Flatten(units) + tail);
      && |samples| <= |ticks|
      && ticks[|ticks| - |samples| + i].to == ScreenPoint(a, samples[i].x, HeightOf(proto, samples[i]))
  {
    hide Pens, Shows, Sent, TicksOf, ScreenPoint, HeightOf, Flatten, Matches, Closing;
    var pens := Pens(cfg, proto, garbage + Flatten(units) + tail);
    SamplesDriveThePen(cfg, proto, garbage, samples, units, tail, i);
    ShownAt(proto, pens[|pens| - |samples| + i], samples[i]);
    TicksAim(a, m, pens, |pens| - |samples| + i);
  }

  /** Each call of a run aims from where the last report before it was. */
  lemma {:induction false} TicksAimFrom(a: Areas, m: Mapping, pens: seq<Pen>, k: nat)
    requires a.tablet.w != 0.0 && a.tablet.h != 0.0 && k < |pens|
    ensures var ticks := TicksOf(a, m, pens);
      ticks[k].to == Target(a, pens[k], Play(ticks[..k]).memory.lastPos)
    decreases |pens|
  {
    hide Target, Play;
    var ticks, init := TicksOf(a, m, pens), pens[..|pens| - 1];
    assert ticks[..|init|] == TicksOf(a, m, init);
    if k < |init| {
      TicksAimFrom(a, m, init, k);
      assert ticks[..k] == TicksOf(a, m, init)[..k];
    }
  }

  /** In mouse mode, whatever the stream: each call carries the pointer on from where the
      last report was by the way the pen has travelled, and by nothing when the pen comes,
      goes or is away. */
  lemma {:induction false} PenCarriesThePointer(cfg: Config, proto: Protocol, a: Areas, m: Mapping, stream: seq<Byte>,
                                                pens: seq<Pen>, ticks: seq<Tick>, k: nat)
    requires Matches(cfg, proto) && !cfg.iisSet && a.mouseMode
    requires a.tablet.w != 0.0 && a.tablet.h != 0.0 && a.screen.w >= 1.0 && a.screen.h >= 1.0
    requires pens == Pens(cfg, proto, stream) && ticks == Session(cfg, proto, a, m, stream) && k < |pens|
    ensures |ticks| == |pens|
    ensures CarriedBy(a, ticks[k].to, Play(ticks[..k]).memory.lastPos,
                      Travelled(proto, if k == 0 then AT_REST else pens[k - 1], pens[k]))
  {
    hide Pens, TicksOf, Target, CarriedBy, Travelled, Play;
    TicksAimFrom(a, m, pens, k);
    MotionIsTravelled(cfg, proto, stream, k);
    MouseCarries(a, pens[k], Play(ticks[..k]).memory.lastPos);
  }

  /** All reads of a session: the events posted are those of the run that the byte stream,
      the mapping and the areas determine, however the bytes are cut into reads. The
      pointer's first position only stays until the first packet. */
  method Serve(cfg: Config, proto: Protocol, mode: Mode, mapping: Mapping, areas: Areas, pointer: Point,
               chunks: seq<seq<Byte>>)
    returns (poster: Poster)
    requires cfg.Valid() && SerialStream.LinesFit(cfg, IDLE, Flatten(chunks))
    requires proto.WacomIV? ==> mode == proto.mode
    requires mapping.Valid() && areas.tablet.w != 0.0 && areas.tablet.h != 0.0
    ensures var ticks := Session(cfg, proto, areas, mapping, Flatten(chunks));
      && poster.Valid()
      && poster.posted == Play(ticks).events && poster.Remembered() == Play(ticks).memory
      && poster.scrPos == (if ticks == [] then pointer else ticks[|ticks| - 1].to)
      && Follows(ticks, Pens(cfg, proto, Flatten(chunks)))
      && Channelled(Play(ticks)) && AddsUp(Play(ticks)) && Clicks.TellsOthers(ticks, poster.posted)
      && (!mapping.Uses(CLICK_OR_RELEASE) ==> Safe(Play(ticks)) && Clicks.TellsLeft(ticks, poster.posted))
      && (!areas.mouseMode && Mappable(areas) ==> AllInArea(areas, Reports(poster.posted)))
      && (!areas.mouseMode && Mappable(areas) && NeverBlind(areas) ==> AddsUpFully(Play(ticks)))
  {
    hide Served, Session, Post, Play, Target, Pens, Run, Decode, SerialStream.LinesFit;
    hide Follows, Safe, Clicks.TellsOthers, Clicks.TellsLeft, Channelled, AddsUp, AddsUpFully;
    hide AllInArea, Reports, Mappable, NeverBlind;
    var reader := new SerialStream.StreamReader(cfg);
    reader.ProcessSerialStream(chunks);
    var outs := reader.delivered;
    var tablet := new Tablet(mode);
    poster := new Poster(mapping, areas, pointer);
    NothingYet(proto, areas, mapping, pointer);
    var n := 0;
    while n < |outs|
      invariant 0 <= n <= |outs| && fresh(tablet) && fresh(poster)
      invariant fresh(poster.buttonState) && fresh(poster.oldButtonState)
      invariant poster.Valid() && poster.mapping == mapping && poster.areas == areas
      invariant Served(proto, areas, mapping, pointer, outs[..n], tablet.stylus,
                       poster.posted, poster.Remembered(), poster.scrPos)
    {
      ServeNext(proto, tablet, poster, pointer, outs, n);
      n := n + 1;
    }
    assert outs[..n] == outs;
    ServedAll(cfg, proto, areas, mapping, pointer, Flatten(chunks), tablet.stylus,
              poster.posted, poster.Remembered(), poster.scrPos);
    SessionIsSafe(cfg, proto, areas, mapping, Flatten(chunks));
  }

  lemma {:induction false} LastTarget(proto: Protocol, a: Areas, m: Mapping, outs: seq<Output>, out: Output)
    requires a.tablet.w != 0.0 && a.tablet.h != 0.0 && out.Packet?
    ensures var ticks := TicksOf(a, m, PensOf(proto, outs + [out]));
      ticks != [] && ticks[|ticks| - 1].to
                     == Target(a, Last(PensOf(proto, outs + [out]), AT_REST),
                               Play(TicksOf(a, m, PensOf(proto, outs))).memory.lastPos)
  {
    PacketsSnoc(outs, out);
    TrailSnoc(proto, Packets(outs), out.bytes);
    var pens := PensOf(proto, outs);
    var pen := Decode(proto, Last(pens, AT_REST), out.bytes);
    TicksSnoc(a, m, pens, pen);
    assert Last(pens + [pen], AT_REST) == pen;
    hide Decode, Trail, Packets, TicksOf, Play, Target, Last;
  }

  lemma {:induction false} SessionPens(cfg: Config, proto: Protocol, stream: seq<Byte>)
    ensures PensOf(proto, Run(cfg, IDLE, stream).outs) == Pens(cfg, proto, stream)
  {
  }
}
