/** The two framers read the same reply out of the same stream. */
module FramersAgree {
  import opened Bytes
  import opened Framer
  import opened Resync
  import opened ReadLine

  /** A reply line without its terminator: a tilde in front, nothing that either framer
      takes as a marker, and no zero, which would end the string early. */
  ghost predicate IsReplyText(text: seq<Byte>) {
    && text != [] && text[0] == TILDE
    && IsLineText(text)
    && forall k :: 0 <= k < |text| ==> text[k] != 0
  }

  /** The commas that count towards the three that end a model reply. */
  function Commas(text: seq<Byte>): (n: nat) {
    if text == [] then 0
    else Commas(text[..|text| - 1]) + if |text| > 4 && text[|text| - 1] == COMMA then 1 else 0
  }

  lemma {:induction false} CommasNext(p: seq<Byte>, b: Byte)
    ensures Commas(p + [b]) == Commas(p) + if |p| >= 4 && b == COMMA then 1 else 0
  {
    assert (p + [b])[..|p|] == p;
  }

  lemma {:induction false} CommasGrow(text: seq<Byte>, k: nat)
    requires k <= |text|
    ensures Commas(text[..k]) <= Commas(text)
    decreases |text|
  {
    if k == |text| {
      assert text[..k] == text;
    } else {
      assert text[..|text| - 1][..k] == text[..k];
      CommasGrow(text[..|text| - 1], k);
    }
  }

  /** The tablet's setup parsing decides whether commas can cut a reply short. */
  predicate Uncut(cfg: Config, text: seq<Byte>) {
    cfg.parsesSetup || Commas(text) < 3
  }

  /** The framer after a piece of a reply: all of it in the phrase, its commas counted. */
  function Collected(cfg: Config, text: seq<Byte>): (st: State) {
    State(false, text, if cfg.parsesSetup then 0 else Commas(text))
  }

  /** One more byte of a reply either ends it, at a third comma, or is collected. */
  lemma {:induction false} CollectNext(cfg: Config, p: seq<Byte>, b: Byte)
    requires !IsHeader(b) && !IsNewline(b) && (p + [b])[0] == TILDE && Uncut(cfg, p)
    ensures Step(cfg, Collected(cfg, p), b)
            == if Uncut(cfg, p + [b]) then Result(Collected(cfg, p + [b]), []) else Result(IDLE, [Reply(p + [b])])
  {
    var text := p + [b];
    assert text[..|text| - 1] == p && text[|text| - 1] == b;
    assert Commas(text) == Commas(p) + if |text| > 4 && b == COMMA then 1 else 0;
    hide Commas;
  }

  lemma {:induction false} FramerCollects(cfg: Config, text: seq<Byte>, k: nat)
    requires cfg.Valid() && IsReplyText(text) && k <= |text| && Uncut(cfg, text[..k])
    ensures Run(cfg, IDLE, text[..k]) == Result(Collected(cfg, text[..k]), [])
    decreases k
  {
    if k == 0 {
      assert text[..k] == [];
    } else {
      var p, b := text[..k - 1], text[k - 1];
      assert text[..k] == p + [b];
      assert (p + [b])[0] == text[0];
      RunSnoc(cfg, IDLE, p, b);
      UncutBefore(cfg, p, b);
      FramerCollects(cfg, text, k - 1);
      CollectNext(cfg, p, b);
      hide Run, Step, Commas;
    }
  }

  lemma {:induction false} UncutBefore(cfg: Config, p: seq<Byte>, b: Byte)
    requires Uncut(cfg, p + [b])
    ensures Uncut(cfg, p)
  {
    assert (p + [b])[..|p|] == p;
    CommasGrow(p + [b], |p|);
  }

  lemma {:induction false} ReplyEnds(cfg: Config, text: seq<Byte>, nl: Byte)
    requires text != [] && text[0] == TILDE && IsNewline(nl)
    ensures Step(cfg, Collected(cfg, text), nl) == Result(IDLE, [Reply(text + [CR])])
  {
  }

  /** Left to itself the framer delivers the whole line exactly when no third comma cuts it. */
  lemma {:induction false} FramerReadsLine(cfg: Config, text: seq<Byte>, nl: Byte)
    requires cfg.Valid() && IsReplyText(text) && IsNewline(nl)
    ensures Uncut(cfg, text) ==> Run(cfg, IDLE, text + [nl]) == Result(IDLE, [Reply(text + [CR])])
    ensures !Uncut(cfg, text) ==>
              var outs := Run(cfg, IDLE, text + [nl]).outs;
              outs != [] && |outs[0].bytes| <= |text|
  {
    assert text[0] == TILDE;
    hide Run, Step, IsReplyText, Commas;
    RunSnoc(cfg, IDLE, text, nl);
    if Uncut(cfg, text) {
      assert text[..|text|] == text;
      FramerCollects(cfg, text, |text|);
      ReplyEnds(cfg, text, nl);
    } else {
      var k := ThirdComma(cfg, text);
      var rest := text[k..] + [nl];
      assert text + [nl] == text[..k] + rest;
      RunConcat(cfg, IDLE, text[..k], rest);
    }
  }

  lemma {:induction false} ThirdComma(cfg: Config, text: seq<Byte>) returns (k: nat)
    requires cfg.Valid() && IsReplyText(text) && !Uncut(cfg, text)
    ensures k <= |text| && Run(cfg, IDLE, text[..k]).outs == [Reply(text[..k])]
    decreases |text|
  {
    var p, b := text[..|text| - 1], text[|text| - 1];
    assert text == p + [b] == text[..|text|];
    if Uncut(cfg, p) {
      k := |text|;
      FramerCollects(cfg, text, |text| - 1);
      RunSnoc(cfg, IDLE, p, b);
      CollectNext(cfg, p, b);
      hide Run, Step, Commas;
    } else {
      assert p != [];
      k := ThirdComma(cfg, p);
      assert p[..k] == text[..k];
    }
  }

  /** Bytes arriving one by one. */
  function Arrivals(s: seq<Byte>): (a: seq<Arrival>)
    ensures |a| == |s|
  {
    if s == [] then [] else Arrivals(s[..|s| - 1]) + [Got(s[|s| - 1])]
  }

  lemma {:induction false} ArrivalsConcat(a: seq<Byte>, b: seq<Byte>)
    ensures Arrivals(a + b) == Arrivals(a) + Arrivals(b)
    decreases |b|
  {
    if b == [] {
      assert a + b == a;
    } else {
      assert (a + b)[..|a + b| - 1] == a + b[..|b| - 1];
      ArrivalsConcat(a, b[..|b| - 1]);
    }
  }

  lemma {:induction false} ReaderIgnores(text: seq<Byte>, packets: seq<Byte>, inPacket: bool)
    requires TILDE !in packets && (packets != [] ==> inPacket || IsHeader(packets[0]))
    ensures TakeAll(Progress(inPacket, text, false), Arrivals(packets))
            == Progress(inPacket || packets != [], text, false)
    decreases |packets|
  {
    if packets != [] {
      assert Arrivals(packets)[..|packets| - 1] == Arrivals(packets[..|packets| - 1]);
      ReaderIgnores(text, packets[..|packets| - 1], inPacket);
    }
  }

  lemma {:induction false} TakeNext(l: Progress, text: seq<Byte>, k: nat)
    requires 1 <= k <= |text|
    ensures TakeAll(l, Arrivals(text[..k])) == Take(TakeAll(l, Arrivals(text[..k - 1])), Got(text[k - 1]))
  {
    assert text[..k][..k - 1] == text[..k - 1];
    assert Arrivals(text[..k])[..k - 1] == Arrivals(text[..k - 1]);
  }

  lemma {:induction false} ReaderCollects(skipping: bool, text: seq<Byte>, k: nat)
    requires IsReplyText(text) && 1 <= k <= |text|
    ensures TakeAll(Progress(skipping, [], false), Arrivals(text[..k])) == Progress(false, text[..k], false)
    decreases k
  {
    TakeNext(Progress(skipping, [], false), text, k);
    if k > 1 {
      ReaderCollects(skipping, text, k - 1);
    } else {
      assert Arrivals(text[..0]) == [];
    }
    assert text[..k] == text[..k - 1] + [text[k - 1]];
    hide TakeAll, Arrivals;
  }

  lemma {:induction false} NoZero(text: seq<Byte>)
    requires 0 !in text
    ensures StrLen(text) == |text|
  {
    if text != [] {
      NoZero(text[1..]);
    }
  }

  lemma {:induction false} UnitsStartWithHeader(cfg: Config, units: seq<seq<Byte>>)
    requires AllUnits(cfg, units) && units != []
    ensures Flatten(units) != [] && IsHeader(Flatten(units)[0])
    decreases |units|
  {
    if |units| > 1 {
      UnitsStartWithHeader(cfg, units[..|units| - 1]);
    } else {
      assert Flatten(units[..0]) == [];
    }
  }

  /** What ReadLine reads: always the reply text. */
  lemma {:induction false} ReaderReadsLine(cfg: Config, units: seq<seq<Byte>>, text: seq<Byte>, nl: Byte)
    requires AllUnits(cfg, units) && TILDE !in Flatten(units)
    requires IsReplyText(text) && IsNewline(nl)
    ensures TakeAll(START, Arrivals(Flatten(units) + (text + [nl]))).text == text
    ensures StrLen(text) == |text|
  {
    var packets := Flatten(units);
    if units != [] {
      UnitsStartWithHeader(cfg, units);
    }
    ReaderIgnores([], packets, false);
    ReaderEnds(packets != [], text, nl);
    ArrivalsConcat(packets, text + [nl]);
    TakeAllConcat(START, Arrivals(packets), Arrivals(text + [nl]));
    NoZero(text);
  }

  lemma {:induction false} ReaderEnds(skipping: bool, text: seq<Byte>, nl: Byte)
    requires IsReplyText(text) && IsNewline(nl)
    ensures TakeAll(Progress(skipping, [], false), Arrivals(text + [nl])) == Progress(false, text, true)
  {
    assert text[..|text|] == text;
    ReaderCollects(skipping, text, |text|);
    assert (text + [nl])[..|text|] == text;
    assert Arrivals(text + [nl])[..|text|] == Arrivals(text);
  }

  /** After complete packets of a tablet other than a TabletPC, with no tilde among their
      bytes, the stream framer delivers as its only reply the line that ReadLine returns,
      with its terminator, if and only if the line is not cut at a third comma. */
  lemma {:induction false} FramersAgreeUnlessCut(cfg: Config, units: seq<seq<Byte>>, text: seq<Byte>, nl: Byte)
    requires cfg.Valid() && !cfg.tabletPC && AllUnits(cfg, units) && TILDE !in Flatten(units)
    requires IsReplyText(text) && IsNewline(nl)
    ensures var stream := Flatten(units) + (text + [nl]);
      var line := TakeAll(START, Arrivals(stream)).text;
      Run(cfg, IDLE, stream).outs == UnitOutputs(cfg, units) + [Reply(line + [CR])] <==> Uncut(cfg, text)
  {
    ReaderReadsLine(cfg, units, text, nl);
    RunUnits(cfg, IDLE, units);
    RunConcat(cfg, IDLE, Flatten(units), text + [nl]);
    FramerReadsLine(cfg, text, nl);
    var outs := Run(cfg, IDLE, text + [nl]).outs;
    var r := Run(cfg, IDLE, Flatten(units));
    assert r.state == IDLE;
    assert r.outs == r.outs + Flush(cfg, IDLE) == Flush(cfg, IDLE) + UnitOutputs(cfg, units) == UnitOutputs(cfg, units);
    var all := UnitOutputs(cfg, units) + outs;
    if !Uncut(cfg, text) {
      assert all[|UnitOutputs(cfg, units)|] == outs[0];
    }
  }
}
