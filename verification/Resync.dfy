/** Whatever came before, a well-formed packet is framed correctly. */
module Resync {
  import opened Bytes
  import opened Framer

  /** What a tablet sends in binary mode: data packets, and from a TabletPC also
      information replies. */
  predicate IsUnit(cfg: Config, u: seq<Byte>) {
    WellFormed(u) && (|u| == cfg.packetSize || (cfg.tabletPC && |u| == INFO_SIZE))
  }

  function UnitOutput(cfg: Config, u: seq<Byte>): (out: Output) {
    if cfg.tabletPC && |u| == INFO_SIZE then Info(u) else Packet(u)
  }

  predicate AllUnits(cfg: Config, units: seq<seq<Byte>>) {
    forall i :: 0 <= i < |units| ==> IsUnit(cfg, units[i])
  }

  function UnitOutputs(cfg: Config, units: seq<seq<Byte>>): (outs: seq<Output>) {
    if units == [] then []
    else UnitOutputs(cfg, units[..|units| - 1]) + [UnitOutput(cfg, units[|units| - 1])]
  }

  /** A TabletPC data packet waits in the phrase until the next header; everything else
      is delivered at its last byte. */
  function Waiting(cfg: Config, u: seq<Byte>): (st: State) {
    if cfg.tabletPC && |u| != INFO_SIZE then State(true, u, 0) else IDLE
  }

  lemma {:induction false} UnitPrefix(cfg: Config, st: State, u: seq<Byte>, k: nat)
    requires cfg.Valid() && Inv(cfg, st) && IsUnit(cfg, u)
    requires 1 <= k <= |u| && k < cfg.FullSize()
    ensures Run(cfg, st, u[..k]) == Result(State(true, u[..k], 0), Flush(cfg, st))
    decreases k
  {
    var p := u[..k - 1];
    assert u[..k] == p + [u[k - 1]];
    RunSnoc(cfg, st, p, u[k - 1]);
    if k == 1 {
      assert p == [];
    } else {
      UnitPrefix(cfg, st, u, k - 1);
    }
  }

  lemma {:induction false} RunUnit(cfg: Config, st: State, u: seq<Byte>)
    requires cfg.Valid() && Inv(cfg, st) && IsUnit(cfg, u)
    ensures Run(cfg, st, u).state == Waiting(cfg, u)
    ensures Run(cfg, st, u).outs + Flush(cfg, Waiting(cfg, u)) == Flush(cfg, st) + [UnitOutput(cfg, u)]
  {
    assert u[..|u|] == u;
    if |u| < cfg.FullSize() {
      UnitPrefix(cfg, st, u, |u|);
    } else {
      UnitPrefix(cfg, st, u, |u| - 1);
      assert u == u[..|u| - 1] + [u[|u| - 1]];
      RunSnoc(cfg, st, u[..|u| - 1], u[|u| - 1]);
    }
  }

  /** From every reachable state the framer delivers a list of packets one for one, after
      at most one leftover phrase. Only a last TabletPC data packet is still waiting. */
  lemma {:induction false} RunUnits(cfg: Config, st: State, units: seq<seq<Byte>>)
    requires cfg.Valid() && Inv(cfg, st) && AllUnits(cfg, units)
    ensures var r := Run(cfg, st, Flatten(units));
      && r.state == (if units == [] then st else Waiting(cfg, units[|units| - 1]))
      && r.outs + Flush(cfg, r.state) == Flush(cfg, st) + UnitOutputs(cfg, units)
    decreases |units|
  {
    if units == [] {
      assert Flush(cfg, st) + [] == Flush(cfg, st);
    } else {
      var init, u := units[..|units| - 1], units[|units| - 1];
      RunUnits(cfg, st, init);
      RunKeepsInv(cfg, st, Flatten(init));
      var mid := Run(cfg, st, Flatten(init));
      RunUnit(cfg, mid.state, u);
      RunConcat(cfg, st, Flatten(init), u);
      Hand(mid.outs, Flush(cfg, mid.state), Flush(cfg, st), UnitOutputs(cfg, init),
           Run(cfg, mid.state, u).outs, Flush(cfg, Waiting(cfg, u)), UnitOutput(cfg, u));
    }
  }

  lemma {:induction false} Hand(before: seq<Output>, held: seq<Output>, flush: seq<Output>, done: seq<Output>,
             outs: seq<Output>, waiting: seq<Output>, out: Output)
    requires before + held == flush + done
    requires outs + waiting == held + [out]
    ensures (before + outs) + waiting == flush + (done + [out])
  {
    calc {
      (before + outs) + waiting;
      before + (outs + waiting);
      (before + held) + [out];
      flush + (done + [out]);
    }
  }

  /** Self-synchronisation: after any garbage, a list of packets comes out unchanged and
      last, and a tablet other than a TabletPC leaves the framer idle. */
  lemma {:induction false} SelfSynchronises(cfg: Config, garbage: seq<Byte>, units: seq<seq<Byte>>)
    requires cfg.Valid() && units != [] && AllUnits(cfg, units)
    ensures var before := Run(cfg, IDLE, garbage);
      var after := Run(cfg, IDLE, garbage + Flatten(units));
      && after.state == Waiting(cfg, units[|units| - 1])
      && after.outs + Flush(cfg, after.state)
         == before.outs + Flush(cfg, before.state) + UnitOutputs(cfg, units)
  {
    hide Run, Step, Flatten, Flush, UnitOutputs, Waiting, Inv, AllUnits, Tracks;
    var before := Run(cfg, IDLE, garbage);
    NothingTracked(cfg);
    RunKeepsInv(cfg, IDLE, garbage);
    RunUnits(cfg, before.state, units);
    RunConcat(cfg, IDLE, garbage, Flatten(units));
    var r := Run(cfg, before.state, Flatten(units));
    assert before.outs + r.outs + Flush(cfg, r.state) == before.outs + (r.outs + Flush(cfg, r.state));
  }

  /** One more header byte releases a waiting TabletPC packet. */
  lemma {:induction false} TrailingHeaderReleases(cfg: Config, garbage: seq<Byte>, units: seq<seq<Byte>>, h: Byte)
    requires cfg.Valid() && units != [] && IsHeader(h) && AllUnits(cfg, units)
    ensures var before := Run(cfg, IDLE, garbage);
      Run(cfg, IDLE, garbage + Flatten(units) + [h]).outs
      == before.outs + Flush(cfg, before.state) + UnitOutputs(cfg, units)
  {
    SelfSynchronises(cfg, garbage, units);
    RunSnoc(cfg, IDLE, garbage + Flatten(units), h);
  }

  /** An information reply of a TabletPC comes out at its eleventh byte, whatever came before. */
  lemma {:induction false} InfoComesOut(cfg: Config, garbage: seq<Byte>, u: seq<Byte>)
    requires cfg.Valid() && cfg.tabletPC && WellFormed(u) && |u| == 11
    ensures var before, after := Run(cfg, IDLE, garbage), Run(cfg, IDLE, garbage + u);
      after.state == IDLE && after.outs == before.outs + Flush(cfg, before.state) + [Info(u)]
  {
    hide Run, Step, WellFormed, Inv, Tracks;
    var before := Run(cfg, IDLE, garbage);
    NothingTracked(cfg);
    RunKeepsInv(cfg, IDLE, garbage);
    RunUnit(cfg, before.state, u);
    RunConcat(cfg, IDLE, garbage, u);
    var r := Run(cfg, before.state, u);
    assert r.outs + [] == r.outs;
    assert before.outs + (Flush(cfg, before.state) + [Info(u)]) == before.outs + Flush(cfg, before.state) + [Info(u)];
  }
}
