/** What a tablet sends as text: replies, and the data lines of an ASCII tablet. */
module TextLines {
  import opened Bytes
  import opened Framer
  import FramersAgree

  /** A line with the newlines that end it, such as a carriage return and a line feed. */
  datatype TextLine = TextLine(text: seq<Byte>, ends: seq<Byte>) {
    function Raw(): (s: seq<Byte>) {
      text + ends
    }

    /** Three commas end a reply early when the tablet cannot parse setup strings. */
    predicate Valid(cfg: Config) {
      && text != [] && ends != [] && Counted(cfg, text) < 3
      && (forall k :: 0 <= k < |text| ==> !IsHeader(text[k]) && !IsNewline(text[k]))
      && (forall k :: 0 <= k < |ends| ==> IsNewline(ends[k]))
    }

    /** A data line of an ASCII tablet is a packet, without any terminator; every other
        line is a reply, and ends with a carriage return whatever ended it. */
    function Delivered(cfg: Config): (out: Output) {
      if cfg.iisSet && |text| >= 2 && text[1] == COMMA && text[0] in {HASH, BANG, STAR} then Packet(text)
      else Reply(text + [CR])
    }
  }

  /** The commas of a line that count towards the three. */
  function Counted(cfg: Config, text: seq<Byte>): (n: nat) {
    if cfg.parsesSetup || text == [] || text[0] != TILDE then 0 else FramersAgree.Commas(text)
  }

  function Raws(lines: seq<TextLine>): (s: seq<Byte>) {
    if lines == [] then [] else Raws(lines[..|lines| - 1]) + lines[|lines| - 1].Raw()
  }

  function Deliveries(cfg: Config, lines: seq<TextLine>): (outs: seq<Output>) {
    if lines == [] then []
    else Deliveries(cfg, lines[..|lines| - 1]) + [lines[|lines| - 1].Delivered(cfg)]
  }

  lemma {:induction false} TextStep(cfg: Config, p: seq<Byte>, b: Byte)
    requires !IsHeader(b) && !IsNewline(b) && Counted(cfg, p + [b]) < 3
    ensures Step(cfg, State(false, p, Counted(cfg, p)), b)
            == Result(State(false, p + [b], Counted(cfg, p + [b])), [])
  {
    CountedNext(cfg, p, b);
    hide Counted, Counts;
  }

  lemma {:induction false} CountedNext(cfg: Config, p: seq<Byte>, b: Byte)
    ensures Counted(cfg, p + [b]) == Counted(cfg, p) + if Counts(cfg, p + [b]) then 1 else 0
  {
    FramersAgree.CommasNext(p, b);
    hide FramersAgree.Commas;
    if p == [] {
      NoCommas();
    } else {
      assert (p + [b])[0] == p[0] && (p + [b])[|p|] == b;
    }
  }

  lemma {:induction false} NoCommas()
    ensures FramersAgree.Commas([]) == 0
  {
  }

  lemma {:induction false} CountedGrows(cfg: Config, text: seq<Byte>, k: nat)
    requires k <= |text|
    ensures Counted(cfg, text[..k]) <= Counted(cfg, text)
  {
    FramersAgree.CommasGrow(text, k);
  }

  lemma {:induction false} TextCollects(cfg: Config, line: TextLine, k: nat)
    requires line.Valid(cfg) && k <= |line.text|
    ensures Run(cfg, IDLE, line.text[..k])
            == Result(State(false, line.text[..k], Counted(cfg, line.text[..k])), [])
    decreases k
  {
    if k > 0 {
      var p, b := line.text[..k - 1], line.text[k - 1];
      assert line.text[..k] == p + [b];
      CountedGrows(cfg, line.text, k);
      TextCollects(cfg, line, k - 1);
      RunSnoc(cfg, IDLE, p, b);
      TextStep(cfg, p, b);
      hide Run, Step, Counted;
    } else {
      assert line.text[..0] == [];
    }
  }

  lemma {:induction false} NewlineDelivers(cfg: Config, text: seq<Byte>, b: Byte, commas: nat)
    requires text != [] && IsNewline(b)
    ensures Step(cfg, State(false, text, commas), b) == Result(IDLE, [TextLine(text, [b]).Delivered(cfg)])
  {
    assert (text + [CR])[..|text|] == text;
  }

  lemma {:induction false} MoreNewlines(cfg: Config, ends: seq<Byte>)
    requires forall k :: 0 <= k < |ends| ==> IsNewline(ends[k])
    ensures Run(cfg, IDLE, ends) == Result(IDLE, [])
    decreases |ends|
  {
    if ends != [] {
      MoreNewlines(cfg, ends[..|ends| - 1]);
      assert IsNewline(ends[|ends| - 1]);
    }
  }

  lemma {:induction false} LineDelivered(cfg: Config, line: TextLine)
    requires line.Valid(cfg)
    ensures Run(cfg, IDLE, line.Raw()) == Result(IDLE, [line.Delivered(cfg)])
  {
    var first, more := line.text + [line.ends[0]], line.ends[1..];
    assert line.Raw() == first + more;
    assert line.text[..|line.text|] == line.text;
    assert line.Delivered(cfg) == TextLine(line.text, [line.ends[0]]).Delivered(cfg);
    hide Run, Step, TextLine.Delivered, Counted;
    TextCollects(cfg, line, |line.text|);
    RunSnoc(cfg, IDLE, line.text, line.ends[0]);
    NewlineDelivers(cfg, line.text, line.ends[0], Counted(cfg, line.text));
    MoreNewlines(cfg, more);
    RunConcat(cfg, IDLE, first, more);
    var outs := [line.Delivered(cfg)];
    assert [] + outs + [] == outs;
  }

  /** Lines come out one for one, in order, with nothing between them, however many
      newlines end each. */
  lemma {:induction false} LinesDelivered(cfg: Config, lines: seq<TextLine>)
    requires forall i :: 0 <= i < |lines| ==> lines[i].Valid(cfg)
    ensures Run(cfg, IDLE, Raws(lines)) == Result(IDLE, Deliveries(cfg, lines))
    decreases |lines|
  {
    hide Step, TextLine.Delivered, TextLine.Raw, TextLine.Valid;
    if lines != [] {
      var init, last := lines[..|lines| - 1], lines[|lines| - 1];
      LinesDelivered(cfg, init);
      LineDelivered(cfg, last);
      RunConcat(cfg, IDLE, Raws(init), last.Raw());
    }
  }

  /** A carriage return, a line feed, or both in either order end a line once. */
  lemma {:induction false} AnyEndDelivers(cfg: Config, text: seq<Byte>, ends: seq<Byte>)
    requires text != [] && Counted(cfg, text) < 3
    requires forall k :: 0 <= k < |text| ==> text[k] < 128 && text[k] != 13 && text[k] != 10
    requires ends == [13] || ends == [10] || ends == [13, 10] || ends == [10, 13]
    ensures Run(cfg, IDLE, text + ends) == Result(IDLE, [TextLine(text, ends).Delivered(cfg)])
  {
    hide Run, Counted, TextLine.Delivered;
    LineDelivered(cfg, TextLine(text, ends));
  }
}
