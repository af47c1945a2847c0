/** Where every byte of the stream ends up. */
module Ledger {
  import opened Bytes
  import opened Framer

  /** The fate of a stretch of the stream: delivered, thrown away as a truncated binary
      phrase, or skipped as a newline with nothing before it. */
  datatype Fate = Delivered(raw: seq<Byte>, out: Output) | Truncated(raw: seq<Byte>) | Skipped(raw: seq<Byte>)

  /** A delivered text carries its bytes unchanged except that a final line feed is
      reported as a carriage return; an II-S data line is handed on without it. */
  ghost predicate Legitimate(cfg: Config, f: Fate) {
    match f
    case Delivered(raw, out) =>
      || raw == out.bytes
      || (raw != [] && IsNewline(raw[|raw| - 1]) && out == Reply(raw[..|raw| - 1] + [CR]))
      || (raw != [] && IsNewline(raw[|raw| - 1]) && cfg.iisSet && out == Packet(raw[..|raw| - 1]))
    case Truncated(raw) => WellFormed(raw) && |raw| < cfg.FullSize() && |raw| != cfg.packetSize
    case Skipped(raw) => |raw| == 1 && IsNewline(raw[0])
  }

  function Raws(fates: seq<Fate>): (s: seq<Byte>) {
    if fates == [] then [] else Raws(fates[..|fates| - 1]) + fates[|fates| - 1].raw
  }

  function Outs(fates: seq<Fate>): (s: seq<Output>) {
    if fates == [] then []
    else Outs(fates[..|fates| - 1])
         + if fates[|fates| - 1].Delivered? then [fates[|fates| - 1].out] else []
  }

  function StepFates(cfg: Config, st: State, b: Byte): (fates: seq<Fate>) {
    var r := Step(cfg, st, b);
    if IsHeader(b) then
      if r.outs != [] then [Delivered(st.phrase, r.outs[0])]
      else if st.phrase != [] then [Truncated(st.phrase)]
      else []
    else if r.outs != [] then
      [Delivered(st.phrase + [b], r.outs[0])]
    else if !st.inPacket && IsNewline(b) then
      [Skipped([b])]
    else
      []
  }

  function Fates(cfg: Config, st: State, s: seq<Byte>): (fates: seq<Fate>) {
    if s == [] then []
    else Fates(cfg, st, s[..|s| - 1])
         + StepFates(cfg, Run(cfg, st, s[..|s| - 1]).state, s[|s| - 1])
  }

  lemma {:induction false} FatesConcat(a: seq<Fate>, b: seq<Fate>)
    requires |b| <= 1
    ensures Raws(a + b) == Raws(a) + Raws(b)
    ensures Outs(a + b) == Outs(a) + Outs(b)
  {
    assert Raws([]) == [] && Outs([]) == [];
    if b == [] {
      assert a + b == a;
    } else {
      FatesOne(b[0]);
      assert b == [b[0]];
      FatesSnoc(a, b[0]);
    }
  }

  lemma {:induction false} FatesSnoc(a: seq<Fate>, f: Fate)
    ensures Raws(a + [f]) == Raws(a) + f.raw
    ensures Outs(a + [f]) == Outs(a) + if f.Delivered? then [f.out] else []
  {
    assert (a + [f])[..|a|] == a;
  }

  lemma {:induction false} FatesOne(f: Fate)
    ensures Raws([f]) == f.raw
    ensures Outs([f]) == if f.Delivered? then [f.out] else []
  {
    assert [f][..0] == [];
  }

  /** At most one fate, which accounts for the phrase and the byte, less what is pending. */
  ghost predicate Accounts(cfg: Config, phrase: seq<Byte>, fs: seq<Fate>, r: Result) {
    if fs == [] then
      r.outs == [] && r.state.phrase == phrase
    else
      && |fs| == 1 && Legitimate(cfg, fs[0])
      && fs[0].raw + r.state.phrase == phrase
      && r.outs == if fs[0].Delivered? then [fs[0].out] else []
  }

  lemma {:induction false} HeaderFate(cfg: Config, st: State, b: Byte)
    requires cfg.Valid() && Inv(cfg, st) && IsHeader(b)
    ensures Accounts(cfg, st.phrase + [b], StepFates(cfg, st, b), Step(cfg, st, b))
  {
  }

  lemma {:induction false} PacketFate(cfg: Config, st: State, b: Byte)
    requires cfg.Valid() && Inv(cfg, st) && st.inPacket && !IsHeader(b)
    ensures Accounts(cfg, st.phrase + [b], StepFates(cfg, st, b), Step(cfg, st, b))
  {
    hide WellFormed;
  }

  lemma {:induction false} NewlineFate(cfg: Config, phrase: seq<Byte>, b: Byte)
    requires phrase != [] && IsNewline(b)
    ensures Legitimate(cfg, Delivered(phrase + [b], Line(cfg, phrase + [CR])))
  {
    var raw, text := phrase + [b], phrase + [CR];
    assert raw[|raw| - 1] == b;
    assert raw[..|raw| - 1] == phrase == text[..|text| - 1];
  }

  lemma {:induction false} CommaFate(cfg: Config, raw: seq<Byte>)
    requires Counts(cfg, raw)
    ensures Legitimate(cfg, Delivered(raw, Line(cfg, raw)))
  {
  }

  /** A byte outside packets either finishes a line, or is skipped, or is added to the phrase. */
  lemma {:induction false} TextFate(cfg: Config, st: State, b: Byte)
    requires cfg.Valid() && Inv(cfg, st) && !st.inPacket && !IsHeader(b)
    ensures Accounts(cfg, st.phrase + [b], StepFates(cfg, st, b), Step(cfg, st, b))
  {
    var raw := st.phrase + [b];
    assert raw + [] == raw;
    assert Legitimate(cfg, Skipped([b])) <==> IsNewline(b);
    if IsNewline(b) {
      if st.phrase != [] {
        NewlineFate(cfg, st.phrase, b);
      }
    } else if Counts(cfg, raw) {
      CommaFate(cfg, raw);
    }
    hide Counts, Line, Legitimate, Inv;
  }

  lemma {:induction false} StepConserves(cfg: Config, st: State, b: Byte)
    requires cfg.Valid() && Inv(cfg, st)
    ensures var r, fs := Step(cfg, st, b), StepFates(cfg, st, b);
      && |fs| <= 1
      && (forall f :: f in fs ==> Legitimate(cfg, f))
      && st.phrase + [b] == Raws(fs) + r.state.phrase
      && r.outs == Outs(fs)
  {
    var fs := StepFates(cfg, st, b);
    assert Raws([]) == [] && Outs([]) == [];
    hide Step, StepFates, Legitimate, Raws, Outs, Inv;
    if IsHeader(b) {
      HeaderFate(cfg, st, b);
    } else if st.inPacket {
      PacketFate(cfg, st, b);
    } else {
      TextFate(cfg, st, b);
    }
    if fs != [] {
      FatesOne(fs[0]);
    }
  }

  /** Byte conservation: the stream, cut at the recorded fates, is all there in order,
      with the pending phrase at the end; and what the fates deliver is what the framer
      delivers. */
  lemma {:induction false} ConservesBytes(cfg: Config, st: State, s: seq<Byte>)
    requires cfg.Valid() && Inv(cfg, st)
    ensures var r, fs := Run(cfg, st, s), Fates(cfg, st, s);
      && (forall f :: f in fs ==> Legitimate(cfg, f))
      && st.phrase + s == Raws(fs) + r.state.phrase
      && r.outs == Outs(fs)
      && (r.state.inPacket ==> |r.state.phrase| < cfg.FullSize())
    decreases |s|
  {
    hide Step, StepFates, Legitimate, Raws, Outs;
    RunKeepsInv(cfg, st, s);
    if s == [] {
      NoFates(st.phrase);
    } else {
      var s0, b := s[..|s| - 1], s[|s| - 1];
      assert s == s0 + [b];
      var mid, fs0 := Run(cfg, st, s0).state, Fates(cfg, st, s0);
      ConservesBytes(cfg, st, s0);
      RunKeepsInv(cfg, st, s0);
      StepConserves(cfg, mid, b);
      FatesConcat(fs0, StepFates(cfg, mid, b));
      Regroup(st.phrase, s0, b, Raws(fs0), mid.phrase,
              Raws(StepFates(cfg, mid, b)), Step(cfg, mid, b).state.phrase);
    }
  }

  lemma {:induction false} NoFates(phrase: seq<Byte>)
    ensures Raws([]) + phrase == phrase + [] && Outs([]) == []
  {
  }

  lemma {:induction false} Regroup(pre: seq<Byte>, s: seq<Byte>, b: Byte,
                raws: seq<Byte>, mid: seq<Byte>, more: seq<Byte>, pending: seq<Byte>)
    requires pre + s == raws + mid
    requires mid + [b] == more + pending
    ensures pre + (s + [b]) == (raws + more) + pending
  {
    calc {
      pre + (s + [b]);
      (pre + s) + [b];
      raws + (mid + [b]);
      (raws + more) + pending;
    }
  }
}
