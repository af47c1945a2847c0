/** What the daemon's stream framer does with one byte, and over a whole stream.
    The automaton here has no lookahead; SerialStream proves that the loop over
    read buffers, which has one, behaves like it. */
module Framer {
  import opened Bytes

  /** Size of a TabletPC information reply. */
  const INFO_SIZE := 11

  /** The settings the framer consults. They stay fixed while a stream is framed. */
  datatype Config = Config(tabletPC: bool, parsesSetup: bool, iisSet: bool, packetSize: nat) {
    predicate Valid() {
      packetSize == 7 || packetSize == 9
    }

    /** The phrase length at which a binary phrase ends without waiting for a header. */
    function FullSize(): nat {
      if tabletPC then INFO_SIZE else packetSize
    }
  }

  datatype State = State(inPacket: bool, phrase: seq<Byte>, commas: nat)

  const IDLE := State(false, [], 0)

  /** A data packet, a text reply, or a TabletPC information reply. */
  datatype Output = Packet(bytes: seq<Byte>) | Reply(bytes: seq<Byte>) | Info(bytes: seq<Byte>)

  datatype Result = Result(state: State, outs: seq<Output>)

  /** What holds of every state the framer can reach. */
  ghost predicate Inv(cfg: Config, st: State) {
    && (st.inPacket ==> WellFormed(st.phrase) && |st.phrase| < cfg.FullSize())
    && (!st.inPacket ==> forall k :: 0 <= k < |st.phrase| ==> !IsHeader(st.phrase[k]) && !IsNewline(st.phrase[k]))
    && (st.commas > 0 ==> !st.inPacket && st.phrase != [] && st.commas < 3)
  }

  /** What the arrival of a header byte delivers. */
  function Flush(cfg: Config, st: State): (outs: seq<Output>) {
    if !st.inPacket then
      if st.phrase == [] then [] else [Reply(st.phrase)]
    else if |st.phrase| == cfg.packetSize then
      [Packet(st.phrase)]
    else
      []
  }

  /** A comma that counts towards the third one, which ends a model reply of tablets
      that cannot parse setup strings. */
  predicate Counts(cfg: Config, phrase: seq<Byte>) {
    !cfg.parsesSetup && |phrase| > 4 && phrase[0] == TILDE && phrase[|phrase| - 1] == COMMA
  }

  /** A finished line: II-S tablets in ASCII mode send their packets as text. */
  function Line(cfg: Config, phrase: seq<Byte>): (out: Output)
    requires |phrase| >= 2
  {
    if cfg.iisSet && phrase[1] == COMMA && phrase[0] in {HASH, BANG, STAR} then
      Packet(phrase[..|phrase| - 1])
    else
      Reply(phrase)
  }

  function Step(cfg: Config, st: State, b: Byte): (r: Result) {
    if IsHeader(b) then
      Result(State(true, [b], 0), Flush(cfg, st))
    else if st.inPacket then
      var phrase := st.phrase + [b];
      if |phrase| == cfg.FullSize() then
        Result(IDLE, [if cfg.tabletPC then Info(phrase) else Packet(phrase)])
      else
        Result(State(true, phrase, st.commas), [])
    else if IsNewline(b) then
      if st.phrase == [] then Result(st, []) else Result(IDLE, [Line(cfg, st.phrase + [CR])])
    else
      var phrase := st.phrase + [b];
      var commas := st.commas + if Counts(cfg, phrase) then 1 else 0;
      if Counts(cfg, phrase) && commas == 3 then
        Result(IDLE, [Line(cfg, phrase)])
      else
        Result(State(false, phrase, commas), [])
  }

  function Run(cfg: Config, st: State, s: seq<Byte>): (r: Result)
    decreases |s|, 1
  {
    if s == [] then
      Result(st, [])
    else
      var last := LastStep(cfg, st, s);
      Result(last.state, Run(cfg, st, s[..|s| - 1]).outs + last.outs)
  }

  /** What the last byte of a stream brings about. */
  function LastStep(cfg: Config, st: State, s: seq<Byte>): (r: Result)
    requires s != []
    decreases |s|, 0
  {
    Step(cfg, Run(cfg, st, s[..|s| - 1]).state, s[|s| - 1])
  }

  lemma {:induction false} StepKeepsInv(cfg: Config, st: State, b: Byte)
    requires cfg.Valid() && Inv(cfg, st)
    ensures Inv(cfg, Step(cfg, st, b).state)
  {
  }

  lemma {:induction false} RunKeepsInv(cfg: Config, st: State, s: seq<Byte>)
    requires cfg.Valid() && Inv(cfg, st)
    ensures Inv(cfg, Run(cfg, st, s).state)
  {
    hide Step, Inv;
    if s != [] {
      RunKeepsInv(cfg, st, s[..|s| - 1]);
      StepKeepsInv(cfg, Run(cfg, st, s[..|s| - 1]).state, s[|s| - 1]);
    }
  }

  lemma {:induction false} RunSnoc(cfg: Config, st: State, s: seq<Byte>, b: Byte)
    ensures Run(cfg, st, s + [b]).state == Step(cfg, Run(cfg, st, s).state, b).state
    ensures Run(cfg, st, s + [b]).outs == Run(cfg, st, s).outs + Step(cfg, Run(cfg, st, s).state, b).outs
  {
    assert (s + [b])[..|s|] == s;
  }

  /** A run over two pieces is a run over the first and then, from where it ended, the second. */
  lemma {:induction false} RunConcat(cfg: Config, st: State, a: seq<Byte>, b: seq<Byte>)
    ensures Run(cfg, st, a + b).state == Run(cfg, Run(cfg, st, a).state, b).state
    ensures Run(cfg, st, a + b).outs == Run(cfg, st, a).outs + Run(cfg, Run(cfg, st, a).state, b).outs
    decreases |b|
  {
    hide Step;
    if b == [] {
      assert a + b == a;
    } else {
      var b0 := b[..|b| - 1];
      assert (a + b)[..|a + b| - 1] == a + b0;
      RunConcat(cfg, st, a, b0);
    }
  }

  // ---- the framer against an independent reading of the stream ----

  /** A stretch of the stream with a header byte in front and low bytes only behind it. */
  predicate FrameAt(s: seq<Byte>, lo: int, hi: int) {
    0 <= lo < hi <= |s| && IsHeader(s[lo]) && forall i :: lo < i < hi ==> !IsHeader(s[i])
  }

  /** The frame that ends with the last byte of the stream, found by looking at the
      stream alone. A TabletPC data packet ends only when the next header arrives,
      because it may turn out to be the start of an information reply. */
  function FrameAtEnd(cfg: Config, s: seq<Byte>): (outs: seq<Output>) {
    var n, full, size := |s|, cfg.FullSize(), cfg.packetSize;
    if FrameAt(s, n - full, n) then
      [if cfg.tabletPC then Info(s[n - full..n]) else Packet(s[n - full..n])]
    else if cfg.tabletPC && FrameAt(s, n - 1 - size, n - 1) && IsHeader(s[n - 1]) then
      [Packet(s[n - 1 - size..n - 1])]
    else
      []
  }

  /** Every frame of the stream, in order. */
  function Frames(cfg: Config, s: seq<Byte>): (outs: seq<Output>) {
    if s == [] then [] else Frames(cfg, s[..|s| - 1]) + FrameAtEnd(cfg, s)
  }

  predicate IsBinary(out: Output) {
    !out.Reply? && out.bytes != [] && IsHeader(out.bytes[0])
  }

  function Binary(outs: seq<Output>): (r: seq<Output>) {
    if outs == [] then []
    else Binary(outs[..|outs| - 1]) + if IsBinary(outs[|outs| - 1]) then [outs[|outs| - 1]] else []
  }

  lemma {:induction false} BinaryConcat(a: seq<Output>, b: seq<Output>)
    ensures Binary(a + b) == Binary(a) + Binary(b)
    decreases |b|
  {
    if b == [] {
      assert a + b == a;
    } else {
      assert (a + b)[..|a + b| - 1] == a + b[..|b| - 1];
      BinaryConcat(a, b[..|b| - 1]);
    }
  }

  lemma {:induction false} BinaryOne(out: Output)
    ensures Binary([out]) == if IsBinary(out) then [out] else []
  {
    assert [out][..0] == [];
  }

  /** The framer is inside a packet exactly when a header lies among the last bytes, and
      its phrase is then the stream from that header on. */
  ghost predicate Tracks(cfg: Config, s: seq<Byte>, st: State) {
    if st.inPacket then
      FrameAt(s, |s| - |st.phrase|, |s|) && s[|s| - |st.phrase|..|s|] == st.phrase
    else
      forall i :: 0 <= i < |s| && |s| - cfg.FullSize() < i ==> !IsHeader(s[i])
  }

  lemma {:induction false} OneFrame(s: seq<Byte>, lo: int, lo': int, hi: int)
    requires FrameAt(s, lo, hi) && FrameAt(s, lo', hi)
    ensures lo == lo'
  {
  }

  lemma {:induction false} FrameStays(s: seq<Byte>, b: Byte, lo: int)
    ensures FrameAt(s + [b], lo, |s|) <==> FrameAt(s, lo, |s|)
    ensures 0 <= lo <= |s| ==> (s + [b])[lo..|s|] == s[lo..|s|]
  {
  }

  lemma {:induction false} FrameGrows(s: seq<Byte>, b: Byte, lo: int)
    requires !IsHeader(b) && lo < |s|
    ensures FrameAt(s + [b], lo, |s| + 1) <==> FrameAt(s, lo, |s|)
    ensures 0 <= lo ==> (s + [b])[lo..|s| + 1] == s[lo..|s|] + [b]
  {
    forall i | 0 <= i < |s| ensures (s + [b])[i] == s[i] {
    }
    assert (s + [b])[|s|] == b;
  }

  lemma {:induction false} HeaderEndsFrame(s: seq<Byte>, b: Byte, lo: int)
    requires IsHeader(b)
    ensures FrameAt(s + [b], lo, |s| + 1) <==> lo == |s|
  {
    var t := s + [b];
    assert t[|s|] == b;
  }

  /** A header delivers the waiting phrase when that is a whole TabletPC packet. */
  lemma {:induction false} HeaderDelivers(cfg: Config, s: seq<Byte>, st: State, b: Byte)
    requires cfg.Valid() && Inv(cfg, st) && Tracks(cfg, s, st) && IsHeader(b)
    ensures Tracks(cfg, s + [b], Step(cfg, st, b).state)
    ensures FrameAtEnd(cfg, s + [b])
            == if st.inPacket && |st.phrase| == cfg.packetSize then [Packet(st.phrase)] else []
  {
    var t, m, size, k := s + [b], |s|, cfg.packetSize, |st.phrase|;
    HeaderEndsFrame(s, b, m);
    HeaderEndsFrame(s, b, m + 1 - cfg.FullSize());
    FrameStays(s, b, m - size);
    assert t[m] == b && t[m..m + 1] == [b];
    if st.inPacket && FrameAt(s, m - size, m) {
      OneFrame(s, m - size, m - k, m);
    }
  }

  lemma {:induction false} FlushIsBinary(cfg: Config, st: State)
    requires cfg.Valid() && Inv(cfg, st)
    ensures Binary(Flush(cfg, st)) == if st.inPacket && |st.phrase| == cfg.packetSize then [Packet(st.phrase)] else []
  {
    BinaryOne(Reply(st.phrase));
    BinaryOne(Packet(st.phrase));
    assert Binary([]) == [];
  }

  /** Inside a packet a low byte delivers the phrase that it completes. */
  lemma {:induction false} LowInPacket(cfg: Config, s: seq<Byte>, st: State, b: Byte)
    requires cfg.Valid() && Inv(cfg, st) && Tracks(cfg, s, st) && !IsHeader(b) && st.inPacket
    ensures Tracks(cfg, s + [b], Step(cfg, st, b).state)
    ensures Step(cfg, st, b).outs == FrameAtEnd(cfg, s + [b])
  {
    hide WellFormed;
    var m, full, k := |s|, cfg.FullSize(), |st.phrase|;
    FrameGrows(s, b, m - k);
    FrameGrows(s, b, m + 1 - full);
    if FrameAt(s, m + 1 - full, m) {
      OneFrame(s, m + 1 - full, m - k, m);
    }
    assert (s + [b])[m] == b;
  }

  /** Outside a packet a low byte completes nothing binary. */
  lemma {:induction false} LowOutside(cfg: Config, s: seq<Byte>, st: State, b: Byte)
    requires cfg.Valid() && Inv(cfg, st) && Tracks(cfg, s, st) && !IsHeader(b) && !st.inPacket
    ensures Tracks(cfg, s + [b], Step(cfg, st, b).state)
    ensures FrameAtEnd(cfg, s + [b]) == []
  {
    var m, full := |s|, cfg.FullSize();
    FrameGrows(s, b, m + 1 - full);
    assert (s + [b])[m] == b;
  }

  lemma {:induction false} TextIsNotBinary(cfg: Config, st: State, b: Byte)
    requires cfg.Valid() && Inv(cfg, st) && !st.inPacket && !IsHeader(b)
    ensures Binary(Step(cfg, st, b).outs) == []
  {
    hide Line, Counts;
    assert Binary([]) == [];
    if Step(cfg, st, b).outs != [] {
      var phrase := st.phrase + [if IsNewline(b) then CR else b];
      assert phrase[0] == st.phrase[0];
      LineIsNotBinary(cfg, phrase);
      BinaryOne(Line(cfg, phrase));
    }
  }

  lemma {:induction false} LineIsNotBinary(cfg: Config, phrase: seq<Byte>)
    requires |phrase| >= 2 && !IsHeader(phrase[0])
    ensures !IsBinary(Line(cfg, phrase))
  {
    assert phrase[..|phrase| - 1][0] == phrase[0];
  }

  lemma {:induction false} WholeIsBinary(cfg: Config, st: State, b: Byte)
    requires cfg.Valid() && Inv(cfg, st) && st.inPacket && !IsHeader(b)
    ensures Binary(Step(cfg, st, b).outs) == Step(cfg, st, b).outs
  {
    var r := Step(cfg, st, b);
    assert Binary([]) == [];
    if r.outs != [] {
      BinaryOne(r.outs[0]);
    }
  }

  lemma {:induction false} StepTracks(cfg: Config, s: seq<Byte>, st: State, b: Byte)
    requires cfg.Valid() && Inv(cfg, st) && Tracks(cfg, s, st)
    ensures Tracks(cfg, s + [b], Step(cfg, st, b).state)
    ensures Binary(Step(cfg, st, b).outs) == FrameAtEnd(cfg, s + [b])
  {
    hide Tracks, FrameAtEnd, Inv, Binary, Flush;
    if IsHeader(b) {
      HeaderDelivers(cfg, s, st, b);
      FlushIsBinary(cfg, st);
    } else if st.inPacket {
      LowInPacket(cfg, s, st, b);
      WholeIsBinary(cfg, st, b);
    } else {
      LowOutside(cfg, s, st, b);
      TextIsNotBinary(cfg, st, b);
    }
  }

  lemma {:induction false} NothingTracked(cfg: Config)
    ensures Tracks(cfg, [], IDLE) && Inv(cfg, IDLE)
  {
  }

  /** From power-up, the binary packets delivered are exactly the frames of the stream. */
  lemma {:induction false} DeliversExactlyTheFrames(cfg: Config, s: seq<Byte>)
    requires cfg.Valid()
    ensures Binary(Run(cfg, IDLE, s).outs) == Frames(cfg, s)
    ensures Tracks(cfg, s, Run(cfg, IDLE, s).state)
  {
    hide Step, Inv, Tracks, FrameAtEnd;
    NothingTracked(cfg);
    if s != [] {
      var s0, b := s[..|s| - 1], s[|s| - 1];
      var before := Run(cfg, IDLE, s0);
      DeliversExactlyTheFrames(cfg, s0);
      RunKeepsInv(cfg, IDLE, s0);
      assert s0 + [b] == s;
      StepTracks(cfg, s0, before.state, b);
      BinaryConcat(before.outs, Step(cfg, before.state, b).outs);
    }
  }

  // ---- what a delivered packet looks like ----

  lemma {:induction false} LinesAreText(cfg: Config, st: State, b: Byte)
    requires cfg.Valid() && Inv(cfg, st) && !st.inPacket && !IsHeader(b)
    ensures forall out :: out in Step(cfg, st, b).outs ==> !IsBinary(out)
  {
    hide Line, Counts, IsBinary;
    var phrase := st.phrase + [if IsNewline(b) then CR else b];
    if |phrase| >= 2 {
      assert phrase[0] == st.phrase[0];
      LineIsNotBinary(cfg, phrase);
    }
  }

  lemma {:induction false} StepDeliversWellFormed(cfg: Config, st: State, b: Byte, out: Output)
    requires cfg.Valid() && Inv(cfg, st) && out in Step(cfg, st, b).outs && IsBinary(out)
    ensures WellFormed(out.bytes)
  {
    if !IsHeader(b) && !st.inPacket {
      LinesAreText(cfg, st, b);
      assert false;
    }
  }

  /** Whatever the stream, a delivered packet with a header in front has no other one. */
  lemma {:induction false} DeliversWellFormed(cfg: Config, s: seq<Byte>, out: Output)
    requires cfg.Valid() && out in Run(cfg, IDLE, s).outs && IsBinary(out)
    ensures WellFormed(out.bytes)
    decreases |s|
  {
    if s != [] {
      hide Step, Inv, IsBinary, WellFormed;
      var before, b := Run(cfg, IDLE, s[..|s| - 1]), s[|s| - 1];
      if out in before.outs {
        DeliversWellFormed(cfg, s[..|s| - 1], out);
      } else {
        NothingTracked(cfg);
        RunKeepsInv(cfg, IDLE, s[..|s| - 1]);
        StepDeliversWellFormed(cfg, before.state, b, out);
      }
    }
  }
}
