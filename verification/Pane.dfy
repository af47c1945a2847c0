/** The preference pane's own encoder and decoder for the setup word. */
module Pane {
  import opened Arith
  import opened Text
  import opened Settings

  /** The controls of the settings tab: selected tags and indices, checkboxes, number fields. */
  datatype Controls = Controls(
    commandTag: nat, baud: nat, parityTag: nat, dataBits: nat, stopBits: nat,
    cts: bool, dsr: bool, transferMode: nat,
    outputFormat: nat, coordSys: nat, transferRate: nat,
    resolution: nat, origin: nat, oorData: bool,
    terminator: nat, pnp: bool,
    sensitivity: nat, readHeight: nat, mdm: bool, tilt: bool,
    counts: Counts)

  /** The selections the pane's menus offer: command sets II-S and IV only, no second kind
      of "no parity", three terminators, and a fifth baud rate. */
  predicate CommandOffered(tag: nat) {
    tag == 2 || tag == 3
  }

  predicate ParityOffered(tag: nat) {
    tag == 0 || tag == 2 || tag == 3
  }

  predicate TerminatorOffered(index: nat) {
    index < 3
  }

  predicate Possible(c: Controls) {
    && CommandOffered(c.commandTag) && c.baud < 5 && ParityOffered(c.parityTag)
    && c.dataBits < 2 && c.stopBits < 2 && c.transferMode < 4
    && c.outputFormat < 2 && c.coordSys < 2 && c.transferRate < 4
    && c.resolution < 4 && c.origin < 2 && TerminatorOffered(c.terminator)
    && c.sensitivity < 2 && c.readHeight < 2
  }

  /** The daemon's fields for a state of the controls. */
  function FieldsOf(c: Controls): (f: Fields) {
    Fields(c.commandTag, Two(c.baud), c.parityTag, c.dataBits, c.stopBits,
           Bit(c.cts), Bit(c.dsr), c.transferMode,
           c.outputFormat, c.coordSys, c.transferRate,
           c.resolution, c.origin, Bit(c.oorData),
           c.terminator, Bit(c.pnp),
           c.sensitivity, c.readHeight, Bit(c.mdm), Bit(c.tilt),
           0, 0, 0, 0)
  }

  /** The text of a word and its numbers, the same on both sides. */
  function SetupText(w: nat, n: Counts): (s: string) {
    TailCount();
    HexDigits(w, 8) + PrintAll(TAIL, Listed(n))
  }

  method LinkBits(c: Controls) returns (bits: nat)
    ensures var f := FieldsOf(c);
      bits == f.commandSet * 0x40000000 + f.baudRate * 0x10000000 + f.parity * 0x4000000
              + f.dataBits * 0x2000000 + f.stopBits * 0x1000000 + f.cts * 0x800000 + f.dsr * 0x400000
  {
    bits := 0x40000000 * c.commandTag;
    bits := bits + 0x10000000 * Two(c.baud);
    bits := bits + 0x04000000 * c.parityTag;
    bits := bits + 0x02000000 * c.dataBits;
    bits := bits + 0x01000000 * c.stopBits;
    if c.cts {
      bits := bits + 0x00800000;
    }
    if c.dsr {
      bits := bits + 0x00400000;
    }
  }

  method FormatBits(c: Controls) returns (bits: nat)
    ensures var f := FieldsOf(c);
      bits == f.transferMode * 0x100000 + f.outputFormat * 0x80000 + f.coordSys * 0x40000
              + f.transferRate * 0x10000 + f.resolution * 0x4000 + f.origin * 0x2000 + f.oorData * 0x1000
              + f.terminator * 0x400
  {
    bits := 0x00100000 * c.transferMode;
    bits := bits + 0x00080000 * c.outputFormat;
    bits := bits + 0x00040000 * c.coordSys;
    bits := bits + 0x00010000 * c.transferRate;
    bits := bits + 0x00004000 * c.resolution;
    bits := bits + 0x00002000 * c.origin;
    if c.oorData {
      bits := bits + 0x00001000;
    }
    bits := bits + 0x00000400 * c.terminator;
  }

  method PenBits(c: Controls) returns (bits: nat)
    ensures var f := FieldsOf(c);
      bits == f.pnp * 0x100 + f.sensitivity * 0x80 + f.readHeight * 0x40 + f.mdm * 0x20 + f.tilt * 0x10
  {
    bits := if c.pnp then 0x00000100 else 0;
    bits := bits + 0x00000080 * c.sensitivity;
    bits := bits + 0x00000040 * c.readHeight;
    if c.mdm {
      bits := bits + 0x00000020;
    }
    if c.tilt {
      bits := bits + 0x00000010;
    }
  }

  /** settingsStringFromControls. Every OR sets bits that are still clear, so it adds. */
  method SettingsStringFromControls(c: Controls) returns (s: string)
    requires Possible(c)
    ensures s == SetupText(Sum(FieldsOf(c)), c.counts)
  {
    var link, format, pen := 0, 0, 0;
    link := LinkBits(c);
    format := FormatBits(c);
    pen := PenBits(c);
    var bits := link + format + pen;
    assert bits == Sum(FieldsOf(c));
    TailCount();
    s := HexDigits(bits, 8) + PrintAll(TAIL, Listed(c.counts));
  }

  /** A selection that the menu does not offer leaves the control as it is. */
  function Select(offered: bool, now: nat, was: nat): (r: nat) {
    if offered then now else was
  }

  /** The controls that show fields and numbers. */
  function Shown(c: Controls, f: Fields, n: Counts): (r: Controls) {
    Controls(Select(CommandOffered(f.commandSet), f.commandSet, c.commandTag), f.baudRate,
             Select(ParityOffered(f.parity), f.parity, c.parityTag), f.dataBits, f.stopBits,
             f.cts == 1, f.dsr == 1, f.transferMode,
             f.outputFormat, f.coordSys, f.transferRate,
             f.resolution, f.origin, f.oorData == 1,
             Select(TerminatorOffered(f.terminator), f.terminator, c.terminator), f.pnp == 1,
             f.sensitivity, f.readHeight, f.mdm == 1, f.tilt == 1, n)
  }

  /** The numbers as the pane scans them, with limited widths. */
  const LIMITED: seq<Item> := [Lit(','), Num(3, 3), Lit(','), Num(2, 2), Lit(','), Num(4, 4), Lit(','), Num(4, 4)]

  datatype Scanned = Refused | Accepted(word: nat, ns: seq<int>)

  /** The pane's sscanf: all five values or nothing. */
  function PaneScan(setup: string): (r: Scanned)
    ensures r.Accepted? ==> |r.ns| == 4
  {
    match ScanHex(setup, 8)
    case Missing => Refused
    case Found(w, rest) =>
      var ns := ScanAll(LIMITED, rest);
      if |ns| == 4 then Accepted(w, ns) else Refused
  }

  method ShowProtocol(c: Controls, w: nat) returns (r: Controls)
    ensures r == c.(commandTag := Select(CommandOffered(Two(w / 0x40000000)), Two(w / 0x40000000), c.commandTag),
                    baud := Two(w / 0x10000000),
                    parityTag := Select(ParityOffered(Two(w / 0x4000000)), Two(w / 0x4000000), c.parityTag))
  {
    var command, parity := Two(w / 0x40000000), Two(w / 0x4000000);
    r := c;
    if CommandOffered(command) {
      r := r.(commandTag := command);
    }
    r := r.(baud := Two(w / 0x10000000));
    if ParityOffered(parity) {
      r := r.(parityTag := parity);
    }
  }

  method ShowLine(c: Controls, w: nat) returns (r: Controls)
    ensures r == c.(dataBits := One(w / 0x2000000), stopBits := One(w / 0x1000000),
                    cts := One(w / 0x800000) == 1, dsr := One(w / 0x400000) == 1,
                    transferMode := Two(w / 0x100000))
  {
    r := c.(dataBits := One(w / 0x2000000), stopBits := One(w / 0x1000000));
    r := r.(cts := One(w / 0x800000) == 1, dsr := One(w / 0x400000) == 1);
    r := r.(transferMode := Two(w / 0x100000));
  }

  method ShowFormat(c: Controls, w: nat) returns (r: Controls)
    ensures r == c.(outputFormat := One(w / 0x80000), coordSys := One(w / 0x40000),
                    transferRate := Two(w / 0x10000), resolution := Two(w / 0x4000),
                    origin := One(w / 0x2000), oorData := One(w / 0x1000) == 1,
                    terminator := Select(TerminatorOffered(Two(w / 0x400)), Two(w / 0x400), c.terminator),
                    pnp := One(w / 0x100) == 1)
  {
    var terminator := Two(w / 0x400);
    r := c.(outputFormat := One(w / 0x80000), coordSys := One(w / 0x40000));
    r := r.(transferRate := Two(w / 0x10000));
    r := r.(resolution := Two(w / 0x4000), origin := One(w / 0x2000), oorData := One(w / 0x1000) == 1);
    if TerminatorOffered(terminator) {
      r := r.(terminator := terminator);
    }
    r := r.(pnp := One(w / 0x100) == 1);
  }

  method ShowPen(c: Controls, w: nat, n: Counts) returns (r: Controls)
    ensures r == c.(sensitivity := One(w / 0x80), readHeight := One(w / 0x40),
                    mdm := One(w / 0x20) == 1, tilt := One(w / 0x10) == 1, counts := n)
  {
    r := c.(sensitivity := One(w / 0x80), readHeight := One(w / 0x40));
    r := r.(mdm := One(w / 0x20) == 1, tilt := One(w / 0x10) == 1);
    r := r.(counts := n);
  }

  function CountsOf(ns: seq<int>): (n: Counts)
    requires |ns| == 4
  {
    Counts(ns[0], ns[1], ns[2], ns[3])
  }

  /** The controls after setControlsForSettings. */
  function PaneRead(c: Controls, setup: string): (r: Controls) {
    match PaneScan(setup)
    case Refused => c
    case Accepted(w, ns) => Shown(c, Unpack(w), CountsOf(ns))
  }

  /** setControlsForSettings. */
  method SetControlsForSettings(c: Controls, setup: string) returns (r: Controls)
    ensures r == PaneRead(c, setup)
  {
    r := c;
    match PaneScan(setup) {
      case Refused =>
      case Accepted(w, ns) =>
        r := ShowWord(r, w, CountsOf(ns));
    }
  }

  method ShowWord(c: Controls, w: nat, n: Counts) returns (r: Controls)
    ensures r == Shown(c, Unpack(w), n)
  {
    r := ShowProtocol(c, w);
    r := ShowLine(r, w);
    r := ShowFormat(r, w);
    r := ShowPen(r, w, n);
  }

  // ---- what the daemon makes of the pane's text ----

  /** Every shared field arrives as the controls have it; the four bits that only the
      daemon knows arrive clear. */
  lemma {:induction false} DaemonReadsPane(c: Controls, was: Counts, junk: nat)
    requires Possible(c)
    ensures var got := ImportOf(SetupText(Sum(FieldsOf(c)), c.counts), was, junk);
      Unpack(got.mask) == FieldsOf(c) && got.counts == c.counts
  {
    UnpackSum(FieldsOf(c));
    TailCount();
    ImportBare(Sum(FieldsOf(c)), c.counts, was, junk);
  }

  // ---- what the pane makes of the daemon's text ----

  lemma {:induction false} LimitedCount()
    ensures Numbers(LIMITED) == 4 && Separated(LIMITED)
  {
    var a := LIMITED[2..];
    var b := a[2..];
    var c := b[2..];
    assert c[2..] == [] && Numbers([]) == 0 && Separated([]);
    hide Numbers, Separated;
    PairInFront(c);
    PairInFront(b);
    PairInFront(a);
    PairInFront(LIMITED);
  }

  /** The pane scans with the widths that the daemon prints with. */
  lemma {:induction false} SamePrint(fmt: seq<Item>, gmt: seq<Item>, ns: seq<int>)
    requires |fmt| == |gmt| && |ns| == Numbers(fmt) == Numbers(gmt)
    requires forall i :: 0 <= i < |fmt| ==>
               (fmt[i].Lit? ==> gmt[i] == fmt[i]) && (fmt[i].Num? ==> gmt[i].Num? && gmt[i].width == fmt[i].width)
    ensures PrintAll(fmt, ns) == PrintAll(gmt, ns)
    decreases |fmt|
  {
    if fmt != [] {
      assert gmt[0].Lit? <==> fmt[0].Lit?;
      SamePrint(fmt[1..], gmt[1..], if fmt[0].Num? then ns[1..] else ns);
    }
  }

  /** No number is longer than the pane's field for it. */
  predicate ShortNumbers(n: Counts) {
    && |Print(n.increment, 3)| <= 3 && |Print(n.interval, 2)| <= 2
    && |Print(n.xrez, 4)| <= 4 && |Print(n.yrez, 4)| <= 4
  }

  lemma {:induction false} ShortNumbersFit(n: Counts)
    ensures Numbers(LIMITED) == 4 && (Fits(LIMITED, Listed(n)) <==> ShortNumbers(n))
  {
    LimitedCount();
    var a, b, c := LIMITED[2..], LIMITED[4..], LIMITED[6..];
    assert LIMITED[1..][1..] == a && a[1..][1..] == b && b[1..][1..] == c && c[1..][1..] == [];
    var ns := Listed(n);
    assert ns[1..][1..] == ns[2..] && ns[2..][1..] == ns[3..] && ns[3..][1..] == [];
    assert Numbers(a) == 3 && Numbers(b) == 2 && Numbers(c) == 1;
    assert Fits(c[1..], ns[3..]) <==> |Print(n.yrez, 4)| <= 4;
    assert Fits(b[1..], ns[2..]) <==> |Print(n.xrez, 4)| <= 4 && Fits(c, ns[3..]);
    assert Fits(a[1..], ns[1..]) <==> |Print(n.interval, 2)| <= 2 && Fits(b, ns[2..]);
    assert Fits(LIMITED[1..], ns) <==> |Print(n.increment, 3)| <= 3 && Fits(a, ns[1..]);
  }

  // a number cut short by a width limit never scans as itself

  lemma {:induction false} ValueGrows(d: string, k: nat)
    requires AllDigits(d) && 0 < k <= |d|
    ensures Value(d[..k]) <= Value(d)
    ensures k < |d| && Value(d[..k]) > 0 ==> Value(d[..k]) < Value(d)
    decreases |d|
  {
    if k == |d| {
      assert d[..k] == d;
    } else {
      var init := d[..|d| - 1];
      assert init[..k] == d[..k];
      ValueGrows(init, k);
    }
  }

  lemma {:induction false} LeadingDigit(n: nat)
    ensures n > 0 ==> DigitVal(Dec(n)[0]) > 0
  {
    if n >= 10 {
      LeadingDigit(n / 10);
      assert Dec(n)[0] == Dec(n / 10)[0];
    }
  }

  lemma {:induction false} FirstCounts(d: string)
    requires AllDigits(d) && d != [] && DigitVal(d[0]) > 0
    ensures Value(d) > 0
  {
    assert d[..1] == [d[0]] && d[..1][..0] == [];
    ValueGrows(d, 1);
  }

  /** A decimal of more than `limit` digits reads as something smaller. */
  lemma {:induction false} CutShort(n: nat, limit: nat, s: string)
    requires |Dec(n)| > limit
    ensures var r := ScanNat(Dec(n) + s, limit); r.Missing? || r.value < n
  {
    var d := Dec(n);
    if limit > 0 {
      RunTakes(d[..limit], d[limit..] + s, limit);
      assert d + s == d[..limit] + (d[limit..] + s);
      assert (d + s)[..limit] == d[..limit];
      DecLong(n);
      LeadingDigit(n);
      FirstCounts(d[..limit]);
      ValueGrows(d, limit);
      ValueOfDec(n);
    } else {
      assert Run(d + s, 0) == 0;
    }
  }

  lemma {:induction false} DecLong(n: nat)
    ensures |Dec(n)| > 1 ==> n > 0
  {
  }

  lemma {:induction false} MinusFirst(d: string, s: string, limit: nat)
    requires limit > 0
    ensures ScanInt(['-'] + d + s, limit) == match ScanNat(d + s, limit - 1)
                                             case Missing => Missing
                                             case Found(v, rest) => Found(0 - v, rest)
  {
    assert (['-'] + d + s)[1..] == d + s;
  }

  lemma {:induction false} NegativeCutShort(n: nat, width: nat, limit: nat, s: string)
    requires n > 0 && 1 <= width <= limit && |Print(0 - n, width)| > limit
    ensures var r := ScanInt(Print(0 - n, width) + s, limit); r.Missing? || r.value != 0 - n
  {
    var d := Dec(n);
    assert Print(0 - n, width) == ['-'] + d;
    hide Print;
    MinusFirst(d, s, limit);
    hide ScanInt, ScanNat, Dec;
    CutShort(n, limit - 1, s);
  }

  lemma {:induction false} CutShortInt(v: int, width: nat, limit: nat, s: string)
    requires 1 <= width <= limit && |Print(v, width)| > limit
    ensures var r := ScanInt(Print(v, width) + s, limit); r.Missing? || r.value != v
  {
    if v >= 0 {
      assert Print(v, width) == Dec(v);
      assert (Dec(v) + s)[0] == Dec(v)[0];
      CutShort(v, limit, s);
    } else {
      NegativeCutShort(-v, width, limit, s);
    }
  }

  /** Scanning returns exactly the numbers printed, if and only if none is too long. */
  predicate WidthsWithinLimits(fmt: seq<Item>) {
    fmt != [] ==> (fmt[0].Num? ==> 1 <= fmt[0].width <= fmt[0].limit) && WidthsWithinLimits(fmt[1..])
  }

  lemma {:induction false} ScansExactly(fmt: seq<Item>, ns: seq<int>, tail: string)
    requires |ns| == Numbers(fmt) && Separated(fmt) && WidthsWithinLimits(fmt) && (tail != [] ==> !IsDigit(tail[0]))
    ensures ScanAll(fmt, PrintAll(fmt, ns) + tail) == ns <==> Fits(fmt, ns)
    decreases |fmt|
  {
    if Fits(fmt, ns) {
      PrintedAllScans(fmt, ns, tail);
    } else if fmt[0].Lit? {
      ScansExactly(fmt[1..], ns, tail);
      Join([fmt[0].c], PrintAll(fmt[1..], ns), tail);
      Front(fmt[0].c, PrintAll(fmt[1..], ns) + tail);
    } else {
      NumberCutShort(fmt, ns, tail);
    }
  }

  lemma {:induction false} NumberCutShort(fmt: seq<Item>, ns: seq<int>, tail: string)
    requires |ns| == Numbers(fmt) && Separated(fmt) && WidthsWithinLimits(fmt) && (tail != [] ==> !IsDigit(tail[0]))
    requires fmt != [] && fmt[0].Num? && !Fits(fmt, ns)
    ensures ScanAll(fmt, PrintAll(fmt, ns) + tail) != ns
    decreases |fmt|, 0
  {
    var s := PrintAll(fmt[1..], ns[1..]) + tail;
    Join(Print(ns[0], fmt[0].width), PrintAll(fmt[1..], ns[1..]), tail);
    if |Print(ns[0], fmt[0].width)| > fmt[0].limit {
      CutShortInt(ns[0], fmt[0].width, fmt[0].limit, s);
    } else {
      NumberStops(fmt, ns, tail);
      ItemScans(fmt[0], ns[0], s);
      ScansExactly(fmt[1..], ns[1..], tail);
    }
  }

  lemma {:induction false} LimitedPrints(n: Counts)
    ensures Numbers(TAIL) == 4 && Numbers(LIMITED) == 4 && WidthsWithinLimits(LIMITED)
    ensures PrintAll(LIMITED, Listed(n)) == PrintAll(TAIL, Listed(n))
  {
    TailCount();
    LimitedCount();
    SamePrint(LIMITED, TAIL, Listed(n));
    var a, b, c := LIMITED[2..], LIMITED[4..], LIMITED[6..];
    assert LIMITED[1..][1..] == a && a[1..][1..] == b && b[1..][1..] == c && c[1..][1..] == [];
    assert WidthsWithinLimits(c[1..]) && WidthsWithinLimits(c);
    assert WidthsWithinLimits(b[1..]) && WidthsWithinLimits(b);
    assert WidthsWithinLimits(a[1..]) && WidthsWithinLimits(a);
  }

  /** The pane reads exactly what the daemon printed, word and numbers, if and only if no
      number is longer than its field. */
  lemma {:induction false} PaneReadsDaemon(w: nat, n: Counts)
    requires w < WORD
    ensures PaneScan(SetupText(w, n)) == Accepted(w, Listed(n)) <==> ShortNumbers(n)
  {
    var tail := PrintAll(TAIL, Listed(n));
    TailScans(n, []);
    assert tail + [] == tail;
    HexScans(w, tail, 8);
    LimitedPrints(n);
    LimitedCount();
    ScansExactly(LIMITED, Listed(n), []);
    ShortNumbersFit(n);
  }

  // ---- round trips through the pane ----

  lemma {:induction false} ReadScanned(was: Controls, text: string, w: nat, n: Counts, f: Fields)
    requires PaneScan(text) == Accepted(w, Listed(n)) && Unpack(w) == f
    ensures PaneRead(was, text) == Shown(was, f, n)
  {
  }

  /** Reading back what the pane wrote restores the controls, if and only if the baud rate
      is one that the word can carry. */
  lemma {:induction false} PaneRoundTrip(c: Controls, was: Controls)
    requires Possible(c) && ShortNumbers(c.counts)
    ensures PaneRead(was, SetupText(Sum(FieldsOf(c)), c.counts)) == c <==> c.baud < 4
  {
    UnpackSum(FieldsOf(c));
    ReadBack(c, was, Sum(FieldsOf(c)), FieldsOf(c));
  }

  lemma {:induction false} ReadBack(c: Controls, was: Controls, w: nat, f: Fields)
    requires Possible(c) && ShortNumbers(c.counts) && f == FieldsOf(c) && w < WORD && Unpack(w) == f
    ensures PaneRead(was, SetupText(w, c.counts)) == c <==> c.baud < 4
  {
    PaneReadsDaemon(w, c.counts);
    ReadScanned(was, SetupText(w, c.counts), w, c.counts, f);
    ShownFields(was, c);
    assert c.baud < 5 ==> (Two(c.baud) == c.baud <==> c.baud < 4);
  }

  lemma {:induction false} ShownFields(was: Controls, c: Controls)
    requires Possible(c)
    ensures Shown(was, FieldsOf(c), c.counts) == c.(baud := Two(c.baud))
  {
  }

  /** Words that the pane's menus can show. */
  predicate Showable(f: Fields) {
    CommandOffered(f.commandSet) && ParityOffered(f.parity) && TerminatorOffered(f.terminator)
  }

  /** What the pane writes after showing a word: that word without the bits it does not
      know, if and only if its menus offer the command set, parity and terminator. */
  lemma {:induction false} PaneRewrites(f: Fields, n: Counts, was: Controls)
    requires Narrow(f) && Possible(was)
    ensures Possible(Shown(was, f, n))
    ensures Showable(f) <==>
            FieldsOf(Shown(was, f, n)) == f.(mmComm := 0, orientation := 0, cursorData := 0, remoteMode := 0)
  {
  }

  /** The pane shows the daemon's settings field by field. */
  lemma {:induction false} PaneShowsDaemon(f: Fields, n: Counts, was: Controls)
    requires ShortNumbers(n)
    ensures PaneRead(was, SettingsString(f, n, false)) == Shown(was, Masked(f), n)
  {
    UnpackPack(f);
    PaneReadsDaemon(Pack(f), n);
    SameText(f, n);
    ReadScanned(was, SetupText(Pack(f), n), Pack(f), n, Masked(f));
  }

  lemma {:induction false} SameText(f: Fields, n: Counts)
    ensures SettingsString(f, n, false) == SetupText(Pack(f), n)
  {
  }

  /** Three-way agreement: daemon settings shown by the pane, written by the pane and
      imported by the daemon again are the same settings without the four bits the pane
      does not know, if and only if the pane's menus offer them. */
  lemma {:induction false} DaemonPaneDaemon(f: Fields, n: Counts, was: Controls, before: Counts, junk: nat)
    requires ShortNumbers(n) && Possible(was)
    ensures var shown := PaneRead(was, SettingsString(f, n, false));
      var got := ImportOf(SetupText(Sum(FieldsOf(shown)), shown.counts), before, junk);
      && got.counts == n
      && (Unpack(got.mask) == Masked(f).(mmComm := 0, orientation := 0, cursorData := 0, remoteMode := 0)
          <==> Showable(Masked(f)))
  {
    PaneShowsDaemon(f, n, was);
    NarrowMasked(f);
    WrittenBack(Masked(f), n, was, PaneRead(was, SettingsString(f, n, false)), before, junk);
  }

  lemma {:induction false} NarrowMasked(f: Fields)
    ensures Narrow(Masked(f))
  {
  }

  lemma {:induction false} WrittenBack(m: Fields, n: Counts, was: Controls, shown: Controls, before: Counts, junk: nat)
    requires Narrow(m) && Possible(was) && shown == Shown(was, m, n)
    ensures var got := ImportOf(SetupText(Sum(FieldsOf(shown)), shown.counts), before, junk);
      && got.counts == n
      && (Unpack(got.mask) == m.(mmComm := 0, orientation := 0, cursorData := 0, remoteMode := 0)
          <==> Showable(m))
  {
    PaneRewrites(m, n, was);
    DaemonReadsPane(shown, before, junk);
  }
}
