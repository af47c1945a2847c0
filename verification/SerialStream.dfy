/** The daemon's loop over read buffers, working in place on its phrase buffer. */
module SerialStream {
  import opened Bytes
  import opened Framer

  datatype Option<T> = None | Some(value: T)

  /** Sizes of the phrase buffer and of the buffers a packet and a reply are copied to. */
  const PHRASE_SIZE := 100
  const PACKET_ROOM := 64
  const REPLY_ROOM := 128

  /** One byte fits the buffers: the phrase has room for it, and a packet that it completes
      leaves room for its terminating zero. */
  predicate ByteFits(cfg: Config, st: State, b: Byte) {
    && (IsHeader(b) || |st.phrase| < PHRASE_SIZE)
    && forall out :: out in Step(cfg, st, b).outs ==> out.Packet? ==> |out.bytes| < PACKET_ROOM
  }

  /** No buffer overflows while `s` is framed. */
  ghost predicate LinesFit(cfg: Config, st: State, s: seq<Byte>) {
    forall k :: 0 <= k < |s| ==> ByteFits(cfg, Run(cfg, st, s[..k]).state, s[k])
  }

  /** How long a text may get: the data lines of an ASCII tablet have less room. */
  function Longest(cfg: Config): (n: nat) {
    if cfg.iisSet then PACKET_ROOM - 1 else PHRASE_SIZE - 1
  }

  /** Every stretch of text bytes without a newline is short. */
  predicate ShortLines(s: seq<Byte>, longest: nat) {
    forall k :: 0 <= k && k + longest < |s| ==> EndsSoon(s, k, longest)
  }

  predicate EndsSoon(s: seq<Byte>, k: nat, longest: nat)
    requires k + longest < |s|
  {
    exists i :: k <= i <= k + longest && (IsHeader(s[i]) || IsNewline(s[i]))
  }

  lemma {:induction false} NextPhrase(cfg: Config, st: State, b: Byte)
    ensures var phrase := Step(cfg, st, b).state.phrase; phrase == [] || phrase == [b] || phrase == st.phrase + [b]
  {
  }

  predicate EndsWith(s: seq<Byte>, tail: seq<Byte>) {
    |tail| <= |s| && s[|s| - |tail|..] == tail
  }

  lemma {:induction false} TailGrows(s: seq<Byte>, tail: seq<Byte>, b: Byte)
    requires EndsWith(s, tail)
    ensures EndsWith(s + [b], []) && EndsWith(s + [b], [b]) && EndsWith(s + [b], tail + [b])
  {
    assert s + [b] == s[..|s| - |tail|] + (tail + [b]);
  }

  /** The phrase is always the end of the stream read so far. */
  lemma {:induction false} PhraseIsTail(cfg: Config, s: seq<Byte>)
    requires cfg.Valid()
    ensures EndsWith(s, Run(cfg, IDLE, s).state.phrase)
    decreases |s|
  {
    hide Step;
    if s != [] {
      var s0, b := s[..|s| - 1], s[|s| - 1];
      var st := Run(cfg, IDLE, s0).state;
      PhraseIsTail(cfg, s0);
      NextPhrase(cfg, st, b);
      TailGrows(s0, st.phrase, b);
      assert s0 + [b] == s;
    }
  }

  lemma {:induction false} InvHolds(cfg: Config)
    requires cfg.Valid()
    ensures Inv(cfg, IDLE)
  {
  }

  lemma {:induction false} LongPhrase(cfg: Config, s: seq<Byte>, k: nat, longest: nat)
    requires cfg.Valid() && k <= |s| && longest >= INFO_SIZE
    ensures var phrase := Run(cfg, IDLE, s[..k]).state.phrase;
      |phrase| > longest ==> |phrase| <= k && !EndsSoon(s, k - |phrase|, longest)
  {
    hide Run, Step;
    var phrase := Run(cfg, IDLE, s[..k]).state.phrase;
    InvHolds(cfg);
    PhraseIsTail(cfg, s[..k]);
    RunKeepsInv(cfg, IDLE, s[..k]);
    forall i | k - |phrase| <= i < k ensures s[i] == phrase[i - (k - |phrase|)] {
      assert s[..k][k - |phrase|..][i - (k - |phrase|)] == s[i];
    }
  }

  lemma {:induction false} ShortPhraseFits(cfg: Config, st: State, b: Byte)
    requires cfg.Valid() && |st.phrase| <= Longest(cfg)
    ensures ByteFits(cfg, st, b)
  {
  }

  /** A bound on the lines of the stream is enough for the buffers. */
  lemma {:induction false} ShortLinesFit(cfg: Config, s: seq<Byte>)
    requires cfg.Valid() && ShortLines(s, Longest(cfg))
    ensures LinesFit(cfg, IDLE, s)
  {
    hide Run, ByteFits;
    forall k | 0 <= k < |s| ensures ByteFits(cfg, Run(cfg, IDLE, s[..k]).state, s[k]) {
      LongPhrase(cfg, s, k, Longest(cfg));
      ShortPhraseFits(cfg, Run(cfg, IDLE, s[..k]).state, s[k]);
    }
  }

  lemma {:induction false} FewCommas(cfg: Config, st: State)
    requires Inv(cfg, st)
    ensures st.commas < 3 && (st.inPacket ==> st.phrase != []) && (st.commas > 0 ==> !st.inPacket && st.phrase != [])
    ensures Flush(cfg, st) == [] ==> st.commas == 0
  {
  }

  lemma {:induction false} StepOnHeader(cfg: Config, st: State, b: Byte)
    requires IsHeader(b)
    ensures Step(cfg, st, b) == Result(State(true, [b], 0), Flush(cfg, st))
  {
  }

  lemma {:induction false} StepInPacket(cfg: Config, st: State, b: Byte)
    requires st.inPacket && !IsHeader(b)
    ensures var grown := st.phrase + [b];
      Step(cfg, st, b) == if |grown| == cfg.FullSize() then
                            Result(IDLE, [if cfg.tabletPC then Info(grown) else Packet(grown)])
                          else
                            Result(State(true, grown, st.commas), [])
  {
  }

  lemma {:induction false} NewlinesAlike(cfg: Config, st: State, b: Byte)
    requires !st.inPacket
    ensures b == LF ==> Step(cfg, st, b) == Step(cfg, st, CR)
    ensures b == LF && ByteFits(cfg, st, b) ==> ByteFits(cfg, st, CR)
  {
  }

  /** A second newline outside a packet changes nothing, so skipping it is harmless. */
  lemma {:induction false} NewlineAfterNewline(cfg: Config, st: State, a: Byte, b: Byte)
    requires Inv(cfg, st) && !st.inPacket && IsNewline(a) && IsNewline(b)
    ensures Step(cfg, Step(cfg, st, a).state, b) == Result(Step(cfg, st, a).state, [])
  {
  }

  lemma {:induction false} RunNext(cfg: Config, st: State, s: seq<Byte>, i: nat)
    requires i < |s|
    ensures var before := Run(cfg, st, s[..i]); var last := Step(cfg, before.state, s[i]);
      Run(cfg, st, s[..i + 1]) == Result(last.state, before.outs + last.outs)
  {
    assert s[..i + 1][..i] == s[..i];
  }

  lemma {:induction false} RoomForByte(cfg: Config, st: State, b: Byte)
    requires ByteFits(cfg, st, b)
    ensures IsHeader(b) || |st.phrase| < PHRASE_SIZE
  {
  }

  lemma {:induction false} HandedFits(cfg: Config, st: State, b: Byte, p: seq<Byte>)
    requires ByteFits(cfg, st, b) && (p == [] || Packet(p) in Step(cfg, st, b).outs)
    ensures |p| < PACKET_ROOM
  {
  }

  class StreamReader {
    const cfg: Config
    const phrase: array<Byte>
    var inPacket: bool
    var phraseCount: nat
    var commaCount: nat
    var delivered: seq<Output>

    ghost predicate Valid()
      reads this, phrase
    {
      && cfg.Valid()
      && phrase.Length == PHRASE_SIZE
      && phraseCount <= phrase.Length
      && Inv(cfg, View())
    }

    ghost function View(): (st: State)
      reads this, phrase
      requires phraseCount <= phrase.Length
    {
      State(inPacket, phrase[..phraseCount], commaCount)
    }

    constructor (cfg: Config)
      requires cfg.Valid()
      ensures Valid() && this.cfg == cfg && View() == IDLE && delivered == [] && fresh(phrase)
    {
      this.cfg := cfg;
      phrase := new Byte[PHRASE_SIZE];
      inPacket, phraseCount, commaCount := false, 0, 0;
      delivered := [];
    }

    /** The outputs handed on at the end of a turn: at most one packet and one reply. */
    static function Handed(p: seq<Byte>, r: seq<Byte>): (outs: seq<Output>) {
      (if p == [] then [] else [Packet(p)]) + (if r == [] then [] else [Reply(r)])
    }

    /** A header byte ends the phrase so far and starts a packet. */
    method BeginPacket() returns (p: seq<Byte>, r: seq<Byte>)
      requires Valid()
      modifies this`inPacket, this`phraseCount
      ensures inPacket && phraseCount == 0
      ensures Handed(p, r) == old(Flush(cfg, View()))
      ensures |p| <= old(phraseCount) && |r| <= old(phraseCount)
    {
      p, r := [], [];
      if inPacket {
        if cfg.tabletPC && phraseCount == INFO_SIZE {
          // an information reply has already been delivered at its last byte
          assert false;
        } else if phraseCount == cfg.packetSize {
          p := phrase[..phraseCount];
        }
      } else {
        r := phrase[..phraseCount];
      }
      phraseCount := 0;
      inPacket := true;
    }

    /** Append a byte to the phrase, ignoring leading newlines. */
    method Extend(s: Byte)
      requires phraseCount < phrase.Length
      modifies this`phraseCount, phrase
      ensures phraseCount <= old(phraseCount) + 1
      ensures phrase[..phraseCount]
              == if old(phraseCount) == 0 && s == CR then [] else old(phrase[..phraseCount]) + [s]
    {
      if phraseCount != 0 || s != CR {
        phrase[phraseCount] := s;
        phraseCount := phraseCount + 1;
      }
    }

    /** Hand on a packet or a reply, each with room for its terminating zero. */
    method HandOn(p: seq<Byte>, r: seq<Byte>)
      requires |p| < PACKET_ROOM && |r| < REPLY_ROOM
      modifies this`commaCount, this`delivered
      ensures delivered == old(delivered) + Handed(p, r)
      ensures commaCount == if p == [] && r == [] then old(commaCount) else 0
    {
      if p != [] {
        commaCount := 0;
        delivered := delivered + [Packet(p)];
      }
      if r != [] {
        commaCount := 0;
        delivered := delivered + [Reply(r)];
      }
    }

    /** A binary phrase of the full size is delivered without waiting for a header. */
    method EndPacket() returns (p: seq<Byte>)
      requires phraseCount <= phrase.Length && cfg.Valid() && inPacket
      modifies this`inPacket, this`phraseCount, this`delivered
      ensures var full := old(phraseCount) == cfg.FullSize();
        && inPacket == !full
        && phraseCount == (if full then 0 else old(phraseCount))
        && p == (if full && !cfg.tabletPC then old(phrase[..phraseCount]) else [])
        && delivered == old(delivered) + if full && cfg.tabletPC then [Info(old(phrase[..phraseCount]))] else []
      ensures |p| <= old(phraseCount)
    {
      p := [];
      if cfg.tabletPC {
        if phraseCount == INFO_SIZE {
          delivered := delivered + [Info(phrase[..phraseCount])];
          inPacket := false;
          phraseCount := 0;
        }
      } else if phraseCount == cfg.packetSize {
        p := phrase[..phraseCount];
        inPacket := false;
        phraseCount := 0;
      }
    }

    /** A text phrase ends at a carriage return, or at the comma that ends a model reply. */
    method EndLine(byte: Byte) returns (p: seq<Byte>, r: seq<Byte>)
      requires phraseCount <= phrase.Length && !inPacket
      requires phraseCount > 0 ==> phrase[phraseCount - 1] == byte
      requires byte == CR ==> phraseCount != 1
      modifies this`phraseCount, this`commaCount
      ensures var text, counts := old(phrase[..phraseCount]), Counts(cfg, old(phrase[..phraseCount]));
        var ends := text != [] && (byte == CR || (counts && old(commaCount) == 2));
        && commaCount == old(commaCount) + (if counts then 1 else 0)
        && phraseCount == (if ends then 0 else |text|)
        && Handed(p, r) == if ends then [Line(cfg, text)] else []
      ensures p == [] || |p| < old(phraseCount)
      ensures |r| <= old(phraseCount)
    {
      var s := byte;
      p, r := [], [];
      if !cfg.parsesSetup && phraseCount > 4 && phrase[0] == TILDE && s == COMMA {
        commaCount := commaCount + 1;
        if commaCount == 3 {
          s := CR;
        }
      }
      if s == CR && phraseCount > 0 {
        if cfg.iisSet && phrase[1] == COMMA && (phrase[0] == HASH || phrase[0] == BANG || phrase[0] == STAR) {
          p := phrase[..phraseCount - 1];
          assert p == phrase[..phraseCount][..phraseCount - 1];
        } else {
          r := phrase[..phraseCount];
        }
        phraseCount := 0;
      }
    }

    /** A byte inside a packet, its header byte included. */
    method PacketByte(s: Byte) returns (p: seq<Byte>)
      requires phraseCount < phrase.Length && cfg.Valid() && inPacket && (phraseCount == 0 ==> s != CR)
      modifies this`inPacket, this`phraseCount, this`delivered, phrase
      ensures var grown := old(phrase[..phraseCount]) + [s]; var full := |grown| == cfg.FullSize();
        && phraseCount <= phrase.Length
        && inPacket == !full
        && phrase[..phraseCount] == (if full then [] else grown)
        && p == (if full && !cfg.tabletPC then grown else [])
        && delivered == old(delivered) + if full && cfg.tabletPC then [Info(grown)] else []
    {
      Extend(s);
      p := EndPacket();
    }

    /** A byte outside packets, with newlines already made carriage returns. */
    method TextByte(s: Byte) returns (p: seq<Byte>, r: seq<Byte>)
      requires phraseCount < phrase.Length && !inPacket && !IsHeader(s) && s != LF
      requires commaCount < 3 && (commaCount > 0 ==> phraseCount > 0)
      modifies this`phraseCount, this`commaCount, phrase
      ensures phraseCount <= phrase.Length
      ensures var next := old(Step(cfg, State(false, phrase[..phraseCount], commaCount), s));
        && !next.state.inPacket
        && phrase[..phraseCount] == next.state.phrase
        && Handed(p, r) == next.outs
        && commaCount >= next.state.commas
        && (next.outs == [] ==> commaCount == next.state.commas)
        && (next.outs != [] ==> next.state.commas == 0)
      ensures |r| <= phrase.Length
    {
      hide Line;
      assert !Counts(cfg, []);
      Extend(s);
      hide Counts;
      p, r := EndLine(s);
    }

    /** What a header byte brings about: the phrase so far is handed on, and the byte opens
        a packet. */
    method HeaderTurn(s: Byte)
      requires Valid() && IsHeader(s) && ByteFits(cfg, View(), s)
      modifies this, phrase
      ensures phraseCount <= phrase.Length && View() == old(Step(cfg, View(), s).state)
      ensures delivered == old(delivered) + old(Step(cfg, View(), s).outs)
    {
      hide Inv, Step, Flush, ByteFits;
      ghost var st := View();
      FewCommas(cfg, st);
      StepOnHeader(cfg, st, s);
      var p, r := BeginPacket();
      var whole := PacketByte(s);
      if whole != [] {
        p := whole;
      }
      HandedFits(cfg, st, s, p);
      HandOn(p, r);
    }

    method PacketTurn(s: Byte)
      requires Valid() && inPacket && !IsHeader(s) && ByteFits(cfg, View(), s)
      modifies this, phrase
      ensures phraseCount <= phrase.Length && View() == old(Step(cfg, View(), s).state)
      ensures delivered == old(delivered) + old(Step(cfg, View(), s).outs)
    {
      hide Inv, Step, ByteFits;
      ghost var st := View();
      FewCommas(cfg, st);
      RoomForByte(cfg, st, s);
      StepInPacket(cfg, st, s);
      var p := PacketByte(s);
      HandedFits(cfg, st, s, p);
      HandOn(p, []);
    }

    method TextTurn(s: Byte)
      requires Valid() && !inPacket && !IsHeader(s) && s != LF && ByteFits(cfg, View(), s)
      modifies this, phrase
      ensures phraseCount <= phrase.Length && View() == old(Step(cfg, View(), s).state)
      ensures delivered == old(delivered) + old(Step(cfg, View(), s).outs)
    {
      hide Inv, Step, ByteFits;
      ghost var st := View();
      FewCommas(cfg, st);
      RoomForByte(cfg, st, s);
      var p, r := TextByte(s);
      HandedFits(cfg, st, s, p);
      HandOn(p, r);
    }

    /** One turn of the loop: take the byte `byte`, knowing the byte that follows it in
        the same read, if any. */
    method Consume(byte: Byte, next: Option<Byte>) returns (skip: bool)
      requires Valid() && ByteFits(cfg, View(), byte)
      modifies this, phrase
      ensures Valid()
      ensures View() == old(Step(cfg, View(), byte).state)
      ensures delivered == old(delivered) + old(Step(cfg, View(), byte).outs)
      ensures skip <==> old(!inPacket) && IsNewline(byte) && next.Some? && IsNewline(next.value)
    {
      hide Inv, Step, ByteFits;
      var s := byte;
      ghost var st := View();
      StepKeepsInv(cfg, st, byte);
      skip := false;
      if IsHeader(s) {
        HeaderTurn(s);
      } else if inPacket {
        PacketTurn(s);
      } else {
        NewlinesAlike(cfg, st, byte);
        if s == LF {
          s := CR;
        }
        if next.Some? && s == CR && IsNewline(next.value) {
          skip := true;
        }
        TextTurn(s);
      }
    }

    /** One read: the bytes of the buffer, with the lookahead confined to the buffer. */
    method ProcessBuffer(buff: seq<Byte>)
      requires Valid() && LinesFit(cfg, View(), buff)
      modifies this, phrase
      ensures Valid()
      ensures View() == old(Run(cfg, View(), buff).state)
      ensures delivered == old(delivered) + old(Run(cfg, View(), buff).outs)
    {
      hide Step, Inv;
      ghost var st0, out0 := View(), delivered;
      var i := 0;
      while i < |buff|
        invariant 0 <= i <= |buff| && Valid()
        invariant View() == Run(cfg, st0, buff[..i]).state
        invariant delivered == out0 + Run(cfg, st0, buff[..i]).outs
      {
        RunNext(cfg, st0, buff, i);
        ghost var st := View();
        var next := if i < |buff| - 1 then Some(buff[i + 1]) else None;
        var skip := Consume(buff[i], next);
        i := i + 1;
        if skip {
          NewlineAfterNewline(cfg, st, buff[i - 1], buff[i]);
          RunNext(cfg, st0, buff, i);
          i := i + 1;
        }
      }
      assert buff[..i] == buff;
    }

    /** All reads until the port is empty. However the stream was cut into reads, the
        outcome is that of the automaton on the whole stream. */
    method ProcessSerialStream(chunks: seq<seq<Byte>>)
      requires Valid() && LinesFit(cfg, View(), Flatten(chunks))
      modifies this, phrase
      ensures Valid()
      ensures View() == old(Run(cfg, View(), Flatten(chunks)).state)
      ensures delivered == old(delivered) + old(Run(cfg, View(), Flatten(chunks)).outs)
    {
      hide Run, Step, Inv, LinesFit, Flatten;
      ghost var st0, out0 := View(), delivered;
      var n := 0;
      FlattenNone(cfg, st0, chunks);
      while n < |chunks|
        invariant 0 <= n <= |chunks| && Valid()
        invariant View() == Run(cfg, st0, Flatten(chunks[..n])).state
        invariant delivered == out0 + Run(cfg, st0, Flatten(chunks[..n])).outs
      {
        FittingReads(cfg, st0, chunks, n);
        RunConcat(cfg, st0, Flatten(chunks[..n]), chunks[n]);
        FlattenNext(chunks, n);
        ProcessBuffer(chunks[n]);
        n := n + 1;
      }
      assert chunks[..n] == chunks;
    }
  }

  lemma {:induction false} FlattenNone(cfg: Config, st: State, chunks: seq<seq<Byte>>)
    ensures Run(cfg, st, Flatten(chunks[..0])) == Result(st, [])
  {
  }

  lemma {:induction false} FittingReads(cfg: Config, st: State, chunks: seq<seq<Byte>>, n: nat)
    requires n < |chunks| && LinesFit(cfg, st, Flatten(chunks))
    ensures LinesFit(cfg, Run(cfg, st, Flatten(chunks[..n])).state, chunks[n])
  {
    var done, all := Flatten(chunks[..n]), Flatten(chunks);
    assert chunks == chunks[..n + 1] + chunks[n + 1..];
    FlattenConcat(chunks[..n + 1], chunks[n + 1..]);
    assert chunks[..n + 1][..n] == chunks[..n];
    hide ByteFits, Run;
    forall k | 0 <= k < |chunks[n]|
      ensures ByteFits(cfg, Run(cfg, Run(cfg, st, done).state, chunks[n][..k]).state, chunks[n][k])
    {
      RunConcat(cfg, st, done, chunks[n][..k]);
      assert all[..|done| + k] == done + chunks[n][..k] && all[|done| + k] == chunks[n][k];
    }
  }
}
