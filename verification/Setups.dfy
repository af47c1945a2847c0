/** What an imported setup means for framing and decoding. */
module Setups {
  import opened Bytes
  import opened Framer
  import opened Stylus
  import opened StylusRuns
  import opened EndToEnd
  import Settings

  /** The framer's settings after an import. */
  function ConfigFor(f: Settings.Fields, tabletPC: bool, parsesSetup: bool): (cfg: Config)
    ensures cfg.Valid()
  {
    Config(tabletPC, parsesSetup, f.commandSet == Settings.WACOM_IIS, Settings.PacketSize(f))
  }

  function Imported(text: string, was: Settings.Counts, junk: nat): (f: Settings.Fields) {
    Settings.Unpack(Settings.ImportOf(text, was, junk).mask)
  }

  /** After importing a setup for Wacom IV, the samples of the tablet get through, if and
      only if the setup has tilt off or the ROM reports tilt. */
  lemma {:induction false} SetupLetsSamplesThrough(text: string, was: Settings.Counts, junk: nat, parsesSetup: bool,
                                                   mode: Mode, garbage: seq<Byte>, samples: seq<Sample>,
                                                   units: seq<seq<Byte>>, i: nat)
    requires Imported(text, was, junk).commandSet == Settings.WACOM_IV && !mode.mouseMode
    requires AllValid(samples) && i < |samples|
    requires Sent(WacomIV(mode), Imported(text, was, junk).tilt == 1, samples, units)
    ensures var f := Imported(text, was, junk);
      GetsThrough(ConfigFor(f, false, parsesSetup), WacomIV(mode), garbage, samples, units, i)
      <==> f.tilt == 0 || mode.hasTilt
  {
    var f := Imported(text, was, junk);
    assert f.tilt < 2;
    hide GetsThrough, Sent, Imported;
    SamplesNeedTheirSize(ConfigFor(f, false, parsesSetup), mode, garbage, samples, units, i);
  }

  // ---- which decoder runs ----

  datatype Decoder = NoDecoder | ForWacomIIS | ForWacomIV | ForTabletPC

  /** The decoder ProcessPacket chooses; the oldest command sets have none. */
  function DecoderFor(commandSet: nat): (d: Decoder) {
    if commandSet == Settings.WACOM_IIS then ForWacomIIS
    else if commandSet == Settings.WACOM_IV then ForWacomIV
    else if commandSet == Settings.TABLET_PC then ForTabletPC
    else NoDecoder
  }

  /** The pen after one packet under a command set other than II-S. */
  function PenUnder(commandSet: nat, mode: Mode, pen: Pen, p: seq<Byte>): (r: Pen)
    requires commandSet != Settings.WACOM_IIS
  {
    match DecoderFor(commandSet)
    case ForWacomIV => DecodeIV(mode, pen, p)
    case ForTabletPC => DecodeTPC(pen, p)
    case _ => Lifted(pen)
  }

  function PensUnder(commandSet: nat, mode: Mode, packets: seq<seq<Byte>>): (pens: seq<Pen>)
    requires commandSet != Settings.WACOM_IIS
    ensures |pens| == |packets|
  {
    if packets == [] then []
    else
      var before := PensUnder(commandSet, mode, packets[..|packets| - 1]);
      before + [PenUnder(commandSet, mode, Last(before, AT_REST), packets[|packets| - 1])]
  }

  lemma {:induction false} RestsWithoutDecoder(commandSet: nat, mode: Mode, packets: seq<seq<Byte>>)
    requires DecoderFor(commandSet) == NoDecoder
    ensures forall i :: 0 <= i < |packets| ==> PensUnder(commandSet, mode, packets)[i] == AT_REST
    decreases |packets|
  {
    if packets != [] {
      RestsWithoutDecoder(commandSet, mode, packets[..|packets| - 1]);
    }
  }

  /** A TabletPC is decoded under a command set that no setup string can carry: after
      importing any text the decoder is another one. */
  lemma {:induction false} NoSetupIsForTabletPC(text: string, was: Settings.Counts, junk: nat)
    ensures DecoderFor(Imported(text, was, junk).commandSet) != ForTabletPC
  {
    hide Settings.ImportOf;
  }

  /** In particular a TabletPC that is sent its own settings back has no decoder any more:
      whatever the tablet sends from then on, the pen stays at rest. */
  lemma {:induction false} OwnSetupSilencesTabletPC(f: Settings.Fields, n: Settings.Counts, was: Settings.Counts,
                                                    junk: nat, mode: Mode, stream: seq<Byte>, parsesSetup: bool)
    requires f.commandSet == Settings.TABLET_PC
    ensures var g := Imported(Settings.SettingsString(f, n, false), was, junk);
      && DecoderFor(g.commandSet) == NoDecoder
      && var packets := Packets(Run(ConfigFor(g, true, parsesSetup), IDLE, stream).outs);
         forall i :: 0 <= i < |packets| ==> PensUnder(g.commandSet, mode, packets)[i] == AT_REST
  {
    var text := Settings.SettingsString(f, n, false);
    var g := Imported(text, was, junk);
    Settings.PrintThenImport(f, n, was, junk, []);
    assert text + [] == text;
    assert g.commandSet == Settings.Two(Settings.TABLET_PC) == 1;
    hide Imported, Run, PensUnder;
    RestsWithoutDecoder(g.commandSet, mode, Packets(Run(ConfigFor(g, true, parsesSetup), IDLE, stream).outs));
  }
}
