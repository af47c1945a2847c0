/** The 32-bit setup word, its textual form, and the settings object that imports it. */
module Settings {
  import opened Arith
  import opened Text

  const WACOM_IIS := 2
  const WACOM_IV := 3
  const TABLET_PC := 5

  /** The settings that the setup word carries; each is a byte in the source. */
  datatype Fields = Fields(
    commandSet: nat,
    baudRate: nat,
    parity: nat,
    dataBits: nat,
    stopBits: nat,
    cts: nat,
    dsr: nat,
    transferMode: nat,
    outputFormat: nat,
    coordSys: nat,
    transferRate: nat,
    resolution: nat,
    origin: nat,
    oorData: nat,
    terminator: nat,
    pnp: nat,
    sensitivity: nat,
    readHeight: nat,
    mdm: nat,
    tilt: nat,
    mmComm: nat,
    orientation: nat,
    cursorData: nat,
    remoteMode: nat)

  datatype Counts = Counts(increment: int, interval: int, xrez: int, yrez: int)

  function One(y: nat): (d: nat)
    ensures d < 2 && (y < 2 ==> d == y)
  {
    y % 2
  }

  function Two(y: nat): (d: nat)
    ensures d < 4 && (y < 4 ==> d == y)
  {
    y % 4
  }

  /** Only the low bits of a field travel. */
  function Masked(f: Fields): (m: Fields) {
    Fields(
      Two(f.commandSet),
      Two(f.baudRate),
      Two(f.parity),
      One(f.dataBits),
      One(f.stopBits),
      One(f.cts),
      One(f.dsr),
      Two(f.transferMode),
      One(f.outputFormat),
      One(f.coordSys),
      Two(f.transferRate),
      Two(f.resolution),
      One(f.origin),
      One(f.oorData),
      Two(f.terminator),
      One(f.pnp),
      One(f.sensitivity),
      One(f.readHeight),
      One(f.mdm),
      One(f.tilt),
      One(f.mmComm),
      One(f.orientation),
      One(f.cursorData),
      One(f.remoteMode))
  }

  /** Every field within its bits. */
  predicate Narrow(f: Fields) {
    && f.commandSet < 4
    && f.baudRate < 4
    && f.parity < 4
    && f.dataBits < 2
    && f.stopBits < 2
    && f.cts < 2
    && f.dsr < 2
    && f.transferMode < 4
    && f.outputFormat < 2
    && f.coordSys < 2
    && f.transferRate < 4
    && f.resolution < 4
    && f.origin < 2
    && f.oorData < 2
    && f.terminator < 4
    && f.pnp < 2
    && f.sensitivity < 2
    && f.readHeight < 2
    && f.mdm < 2
    && f.tilt < 2
    && f.mmComm < 2
    && f.orientation < 2
    && f.cursorData < 2
    && f.remoteMode < 2
  }

  /** The word that SettingsString prints. */
  function Pack(f: Fields): (w: nat) {
    Sum(Masked(f))
  }

  function Sum(f: Fields): (w: nat) {
    f.commandSet * 0x40000000
    + f.baudRate * 0x10000000
    + f.parity * 0x4000000
    + f.dataBits * 0x2000000
    + f.stopBits * 0x1000000
    + f.cts * 0x800000
    + f.dsr * 0x400000
    + f.transferMode * 0x100000
    + f.outputFormat * 0x80000
    + f.coordSys * 0x40000
    + f.transferRate * 0x10000
    + f.resolution * 0x4000
    + f.origin * 0x2000
    + f.oorData * 0x1000
    + f.terminator * 0x400
    + f.pnp * 0x100
    + f.sensitivity * 0x80
    + f.readHeight * 0x40
    + f.mdm * 0x20
    + f.tilt * 0x10
    + f.mmComm * 0x8
    + f.orientation * 0x4
    + f.cursorData * 0x2
    + f.remoteMode * 0x1
  }

  /** The fields that Import takes from a word. */
  function Unpack(w: nat): (f: Fields) {
    Fields(
      Two(w / 0x40000000),
      Two(w / 0x10000000),
      Two(w / 0x4000000),
      One(w / 0x2000000),
      One(w / 0x1000000),
      One(w / 0x800000),
      One(w / 0x400000),
      Two(w / 0x100000),
      One(w / 0x80000),
      One(w / 0x40000),
      Two(w / 0x10000),
      Two(w / 0x4000),
      One(w / 0x2000),
      One(w / 0x1000),
      Two(w / 0x400),
      One(w / 0x100),
      One(w / 0x80),
      One(w / 0x40),
      One(w / 0x20),
      One(w / 0x10),
      One(w / 0x8),
      One(w / 0x4),
      One(w / 0x2),
      One(w / 0x1))
  }

  /** One digit of a number in mixed base, given what is above it and below it. */
  lemma {:induction false} Digit(w: nat, c: nat, low: nat, q: nat, high: nat, m: nat, d: nat) returns (next: nat)
    requires c > 0 && w == q * c + low && low < c && q == high * m + d && d < m
    ensures w / c % m == d
    ensures w == high * (c * m) + next && next < c * m
  {
    next := d * c + low;
    QuotientIs(w, c, q, low);
    QuotientIs(q, m, high, d);
    assert q * c == high * (c * m) + d * c;
    assert (d + 1) * c <= m * c;
  }

  lemma {:induction false} Group0(f: Fields, w: nat, low: nat, high: nat)
    requires Narrow(f) && low < 0x1
    requires w == high * 0x10 + low
                  + f.mmComm * 0x8 + f.orientation * 0x4 + f.cursorData * 0x2 + f.remoteMode * 0x1
    ensures One(w / 0x8) == f.mmComm
    ensures One(w / 0x4) == f.orientation
    ensures One(w / 0x2) == f.cursorData
    ensures One(w / 0x1) == f.remoteMode
  {
    var q3 := high * 2 + f.mmComm;
    var q2 := q3 * 2 + f.orientation;
    var q1 := q2 * 2 + f.cursorData;
    var q0 := q1 * 2 + f.remoteMode;
    var l1 := Digit(w, 0x1, low, q0, q1, 2, f.remoteMode);
    var l2 := Digit(w, 0x2, l1, q1, q2, 2, f.cursorData);
    var l3 := Digit(w, 0x4, l2, q2, q3, 2, f.orientation);
    var _ := Digit(w, 0x8, l3, q3, high, 2, f.mmComm);
  }

  lemma {:induction false} Group1(f: Fields, w: nat, low: nat, high: nat)
    requires Narrow(f) && low < 0x10
    requires w == high * 0x100 + low
                  + f.sensitivity * 0x80 + f.readHeight * 0x40 + f.mdm * 0x20 + f.tilt * 0x10
    ensures One(w / 0x80) == f.sensitivity
    ensures One(w / 0x40) == f.readHeight
    ensures One(w / 0x20) == f.mdm
    ensures One(w / 0x10) == f.tilt
  {
    var q7 := high * 2 + f.sensitivity;
    var q6 := q7 * 2 + f.readHeight;
    var q5 := q6 * 2 + f.mdm;
    var q4 := q5 * 2 + f.tilt;
    var l5 := Digit(w, 0x10, low, q4, q5, 2, f.tilt);
    var l6 := Digit(w, 0x20, l5, q5, q6, 2, f.mdm);
    var l7 := Digit(w, 0x40, l6, q6, q7, 2, f.readHeight);
    var _ := Digit(w, 0x80, l7, q7, high, 2, f.sensitivity);
  }

  lemma {:induction false} Group2Low(f: Fields, w: nat, low: nat, high: nat)
    requires Narrow(f) && low < 0x100
    requires w == high * 0x1000 + low + f.terminator * 0x400 + f.pnp * 0x100
    ensures Two(w / 0x400) == f.terminator
    ensures One(w / 0x100) == f.pnp
  {
    var q10 := high * 4 + f.terminator;
    var q9 := q10 * 2 + 0;
    var q8 := q9 * 2 + f.pnp;
    var l9 := Digit(w, 0x100, low, q8, q9, 2, f.pnp);
    var l10 := Digit(w, 0x200, l9, q9, q10, 2, 0);
    var _ := Digit(w, 0x400, l10, q10, high, 4, f.terminator);
  }

  lemma {:induction false} Group2High(f: Fields, w: nat, low: nat, high: nat)
    requires Narrow(f) && low < 0x1000
    requires w == high * 0x10000 + low + f.resolution * 0x4000 + f.origin * 0x2000 + f.oorData * 0x1000
    ensures Two(w / 0x4000) == f.resolution
    ensures One(w / 0x2000) == f.origin
    ensures One(w / 0x1000) == f.oorData
  {
    var q14 := high * 4 + f.resolution;
    var q13 := q14 * 2 + f.origin;
    var q12 := q13 * 2 + f.oorData;
    var l13 := Digit(w, 0x1000, low, q12, q13, 2, f.oorData);
    var l14 := Digit(w, 0x2000, l13, q13, q14, 2, f.origin);
    var _ := Digit(w, 0x4000, l14, q14, high, 4, f.resolution);
  }

  lemma {:induction false} Group2(f: Fields, w: nat, low: nat, high: nat)
    requires Narrow(f) && low < 0x100
    requires w == high * 0x10000 + low
                  + f.resolution * 0x4000 + f.origin * 0x2000 + f.oorData * 0x1000 + f.terminator * 0x400
                  + f.pnp * 0x100
    ensures Two(w / 0x4000) == f.resolution
    ensures One(w / 0x2000) == f.origin
    ensures One(w / 0x1000) == f.oorData
    ensures Two(w / 0x400) == f.terminator
    ensures One(w / 0x100) == f.pnp
  {
    hide One, Two;
    Group2Low(f, w, low, high * 0x10 + f.resolution * 0x4 + f.origin * 0x2 + f.oorData);
    Group2High(f, w, low + f.terminator * 0x400 + f.pnp * 0x100, high);
  }

  lemma {:induction false} Group3Low(f: Fields, w: nat, low: nat, high: nat)
    requires Narrow(f) && low < 0x10000
    requires w == high * 0x100000 + low + f.outputFormat * 0x80000 + f.coordSys * 0x40000 + f.transferRate * 0x10000
    ensures One(w / 0x80000) == f.outputFormat
    ensures One(w / 0x40000) == f.coordSys
    ensures Two(w / 0x10000) == f.transferRate
  {
    var q19 := high * 2 + f.outputFormat;
    var q18 := q19 * 2 + f.coordSys;
    var q16 := q18 * 4 + f.transferRate;
    var l18 := Digit(w, 0x10000, low, q16, q18, 4, f.transferRate);
    var l19 := Digit(w, 0x40000, l18, q18, q19, 2, f.coordSys);
    var _ := Digit(w, 0x80000, l19, q19, high, 2, f.outputFormat);
  }

  lemma {:induction false} Group3High(f: Fields, w: nat, low: nat, high: nat)
    requires Narrow(f) && low < 0x100000
    requires w == high * 0x1000000 + low + f.cts * 0x800000 + f.dsr * 0x400000 + f.transferMode * 0x100000
    ensures One(w / 0x800000) == f.cts
    ensures One(w / 0x400000) == f.dsr
    ensures Two(w / 0x100000) == f.transferMode
  {
    var q23 := high * 2 + f.cts;
    var q22 := q23 * 2 + f.dsr;
    var q20 := q22 * 4 + f.transferMode;
    var l22 := Digit(w, 0x100000, low, q20, q22, 4, f.transferMode);
    var l23 := Digit(w, 0x400000, l22, q22, q23, 2, f.dsr);
    var _ := Digit(w, 0x800000, l23, q23, high, 2, f.cts);
  }

  lemma {:induction false} Group3(f: Fields, w: nat, low: nat, high: nat)
    requires Narrow(f) && low < 0x10000
    requires w == high * 0x1000000 + low
                  + f.cts * 0x800000 + f.dsr * 0x400000 + f.transferMode * 0x100000 + f.outputFormat * 0x80000
                  + f.coordSys * 0x40000 + f.transferRate * 0x10000
    ensures One(w / 0x800000) == f.cts
    ensures One(w / 0x400000) == f.dsr
    ensures Two(w / 0x100000) == f.transferMode
    ensures One(w / 0x80000) == f.outputFormat
    ensures One(w / 0x40000) == f.coordSys
    ensures Two(w / 0x10000) == f.transferRate
  {
    hide One, Two;
    Group3Low(f, w, low, high * 0x10 + f.cts * 0x8 + f.dsr * 0x4 + f.transferMode);
    Group3High(f, w, low + f.outputFormat * 0x80000 + f.coordSys * 0x40000 + f.transferRate * 0x10000, high);
  }

  lemma {:induction false} Group4Low(f: Fields, w: nat, low: nat, high: nat)
    requires Narrow(f) && low < 0x1000000
    requires w == high * 0x10000000 + low + f.parity * 0x4000000 + f.dataBits * 0x2000000 + f.stopBits * 0x1000000
    ensures Two(w / 0x4000000) == f.parity
    ensures One(w / 0x2000000) == f.dataBits
    ensures One(w / 0x1000000) == f.stopBits
  {
    var q26 := high * 4 + f.parity;
    var q25 := q26 * 2 + f.dataBits;
    var q24 := q25 * 2 + f.stopBits;
    var l25 := Digit(w, 0x1000000, low, q24, q25, 2, f.stopBits);
    var l26 := Digit(w, 0x2000000, l25, q25, q26, 2, f.dataBits);
    var _ := Digit(w, 0x4000000, l26, q26, high, 4, f.parity);
  }

  lemma {:induction false} Group4High(f: Fields, w: nat, low: nat, high: nat)
    requires Narrow(f) && low < 0x10000000
    requires w == high * 0x100000000 + low + f.commandSet * 0x40000000 + f.baudRate * 0x10000000
    ensures Two(w / 0x40000000) == f.commandSet
    ensures Two(w / 0x10000000) == f.baudRate
  {
    var q30 := high * 4 + f.commandSet;
    var q28 := q30 * 4 + f.baudRate;
    var l30 := Digit(w, 0x10000000, low, q28, q30, 4, f.baudRate);
    var _ := Digit(w, 0x40000000, l30, q30, high, 4, f.commandSet);
  }

  lemma {:induction false} Group4(f: Fields, w: nat, low: nat, high: nat)
    requires Narrow(f) && low < 0x1000000
    requires w == high * 0x100000000 + low
                  + f.commandSet * 0x40000000 + f.baudRate * 0x10000000 + f.parity * 0x4000000 + f.dataBits * 0x2000000
                  + f.stopBits * 0x1000000
    ensures Two(w / 0x40000000) == f.commandSet
    ensures Two(w / 0x10000000) == f.baudRate
    ensures Two(w / 0x4000000) == f.parity
    ensures One(w / 0x2000000) == f.dataBits
    ensures One(w / 0x1000000) == f.stopBits
  {
    hide One, Two;
    Group4Low(f, w, low, high * 0x10 + f.commandSet * 0x4 + f.baudRate);
    Group4High(f, w, low + f.parity * 0x4000000 + f.dataBits * 0x2000000 + f.stopBits * 0x1000000, high);
  }

  lemma {:induction false} UnpackSum(f: Fields)
    requires Narrow(f)
    ensures Unpack(Sum(f)) == f && Sum(f) < WORD
  {
    hide One, Two;
    var w := Sum(f);
    var b0 := f.mmComm * 0x8 + f.orientation * 0x4 + f.cursorData * 0x2 + f.remoteMode * 0x1;
    var b1 := f.sensitivity * 0x8 + f.readHeight * 0x4 + f.mdm * 0x2 + f.tilt * 0x1;
    var b2 := f.resolution * 0x40 + f.origin * 0x20 + f.oorData * 0x10 + f.terminator * 0x4 + f.pnp * 0x1;
    var b3 := f.cts * 0x80 + f.dsr * 0x40 + f.transferMode * 0x10 + f.outputFormat * 0x8 + f.coordSys * 0x4
              + f.transferRate * 0x1;
    var b4 := f.commandSet * 0x40 + f.baudRate * 0x10 + f.parity * 0x4 + f.dataBits * 0x2 + f.stopBits * 0x1;
    Group0(f, w, 0, b4 * 0x100000 + b3 * 0x1000 + b2 * 0x10 + b1);
    Group1(f, w, b0, b4 * 0x10000 + b3 * 0x100 + b2);
    Group2(f, w, b1 * 0x10 + b0, b4 * 0x100 + b3);
    Group3(f, w, b2 * 0x100 + b1 * 0x10 + b0, b4);
    Group4(f, w, b3 * 0x10000 + b2 * 0x100 + b1 * 0x10 + b0, 0);
  }

  /** Unpacking what was packed gives the low bits of every field. */
  lemma {:induction false} UnpackPack(f: Fields)
    ensures Unpack(Pack(f)) == Masked(f) && Pack(f) < WORD
  {
    UnpackSum(Masked(f));
  }

  lemma {:induction false} Nest(w: nat, c: nat, m: nat, h: nat, d: nat, r: nat)
    requires c > 0 && d < m && r < c && w == (h * m + d) * c + r
    ensures w / (c * m) == h
  {
    assert (h * m + d) * c == h * (c * m) + d * c;
    assert (d + 1) * c <= m * c;
    QuotientIs(w, c * m, h, d * c + r);
  }

  lemma {:induction false} SplitOff(w: nat, c: nat, m: nat)
    requires c > 0 && m > 0
    ensures w / c == w / (c * m) * m + w / c % m
  {
    var q := w / c;
    assert q / m * m + q % m == q;
    Nest(w, c, m, q / m, q % m, w % c);
  }

  lemma {:induction false} Regroup0(w: nat)
    ensures w / 0x1 == w / 0x10 * 0x10
              + One(w / 0x8) * 0x8
              + One(w / 0x4) * 0x4
              + One(w / 0x2) * 0x2
              + One(w / 0x1) * 0x1
  {
    SplitOff(w, 0x1, 2);
    SplitOff(w, 0x2, 2);
    SplitOff(w, 0x4, 2);
    SplitOff(w, 0x8, 2);
  }

  lemma {:induction false} Regroup1(w: nat)
    ensures w / 0x10 == w / 0x100 * 0x10
              + One(w / 0x80) * 0x8
              + One(w / 0x40) * 0x4
              + One(w / 0x20) * 0x2
              + One(w / 0x10) * 0x1
  {
    SplitOff(w, 0x10, 2);
    SplitOff(w, 0x20, 2);
    SplitOff(w, 0x40, 2);
    SplitOff(w, 0x80, 2);
  }

  lemma {:induction false} Regroup2(w: nat)
    ensures w / 0x100 == w / 0x10000 * 0x100
              + Two(w / 0x4000) * 0x40
              + One(w / 0x2000) * 0x20
              + One(w / 0x1000) * 0x10
              + Two(w / 0x400) * 0x4
              + One(w / 0x200) * 0x2
              + One(w / 0x100) * 0x1
  {
    SplitOff(w, 0x100, 2);
    SplitOff(w, 0x200, 2);
    SplitOff(w, 0x400, 4);
    SplitOff(w, 0x1000, 2);
    SplitOff(w, 0x2000, 2);
    SplitOff(w, 0x4000, 4);
  }

  lemma {:induction false} Regroup3(w: nat)
    ensures w / 0x10000 == w / 0x1000000 * 0x100
              + One(w / 0x800000) * 0x80
              + One(w / 0x400000) * 0x40
              + Two(w / 0x100000) * 0x10
              + One(w / 0x80000) * 0x8
              + One(w / 0x40000) * 0x4
              + Two(w / 0x10000) * 0x1
  {
    SplitOff(w, 0x10000, 4);
    SplitOff(w, 0x40000, 2);
    SplitOff(w, 0x80000, 2);
    SplitOff(w, 0x100000, 4);
    SplitOff(w, 0x400000, 2);
    SplitOff(w, 0x800000, 2);
  }

  lemma {:induction false} Regroup4(w: nat)
    ensures w / 0x1000000 == w / 0x100000000 * 0x100
              + Two(w / 0x40000000) * 0x40
              + Two(w / 0x10000000) * 0x10
              + Two(w / 0x4000000) * 0x4
              + One(w / 0x2000000) * 0x2
              + One(w / 0x1000000) * 0x1
  {
    SplitOff(w, 0x1000000, 2);
    SplitOff(w, 0x2000000, 2);
    SplitOff(w, 0x4000000, 4);
    SplitOff(w, 0x10000000, 4);
    SplitOff(w, 0x40000000, 4);
  }

  /** Packing what was unpacked gives the word back without its unused bit 9. */
  lemma {:induction false} PackUnpack(w: nat)
    requires w < WORD
    ensures Pack(Unpack(w)) == w - One(w / 0x200) * 0x200
  {
    hide Sum, Unpack, Narrow, Masked;
    NarrowUnpack(w);
    SumUnpack(w);
  }

  lemma {:induction false} SumUnpack(w: nat)
    requires w < WORD
    ensures Sum(Unpack(w)) == w - One(w / 0x200) * 0x200
  {
    hide One, Two;
    LowHalf(w);
    HighHalf(w);
  }

  lemma {:induction false} LowHalf(w: nat)
    ensures w == w / 0x10000 * 0x10000
              + Two(w / 0x4000) * 0x4000 + One(w / 0x2000) * 0x2000 + One(w / 0x1000) * 0x1000
              + Two(w / 0x400) * 0x400 + One(w / 0x200) * 0x200 + One(w / 0x100) * 0x100
              + One(w / 0x80) * 0x80 + One(w / 0x40) * 0x40 + One(w / 0x20) * 0x20 + One(w / 0x10) * 0x10
              + One(w / 0x8) * 0x8 + One(w / 0x4) * 0x4 + One(w / 0x2) * 0x2 + One(w / 0x1) * 0x1
  {
    hide One, Two;
    Regroup0(w);
    Regroup1(w);
    Regroup2(w);
  }

  lemma {:induction false} HighHalf(w: nat)
    requires w < WORD
    ensures w / 0x10000 == Two(w / 0x40000000) * 0x4000 + Two(w / 0x10000000) * 0x1000 + Two(w / 0x4000000) * 0x400
                           + One(w / 0x2000000) * 0x200 + One(w / 0x1000000) * 0x100
                           + One(w / 0x800000) * 0x80 + One(w / 0x400000) * 0x40 + Two(w / 0x100000) * 0x10
                           + One(w / 0x80000) * 0x8 + One(w / 0x40000) * 0x4 + Two(w / 0x10000) * 0x1
  {
    hide One, Two;
    Regroup3(w);
    Regroup4(w);
    assert w / 0x1_0000_0000 == 0;
  }

  lemma {:induction false} NarrowUnpack(w: nat)
    ensures Narrow(Unpack(w)) && Masked(Unpack(w)) == Unpack(w)
  {
  }

  // ---- the text form ----

  /** The numbers that follow the word. */
  const TAIL: seq<Item> := [Lit(','), Num(3, 0), Lit(','), Num(2, 0), Lit(','), Num(4, 0), Lit(','), Num(4, 0)]

  function Listed(n: Counts): (ns: seq<int>) {
    [n.increment, n.interval, n.xrez, n.yrez]
  }

  lemma {:induction false} TailCount()
    ensures Numbers(TAIL) == 4
  {
    var a := TAIL[2..];
    var b := a[2..];
    var c := b[2..];
    assert c[2..] == [] && Numbers([]) == 0;
    hide Numbers, Separated;
    PairInFront(c);
    PairInFront(b);
    PairInFront(a);
    PairInFront(TAIL);
  }

  /** TabletSettings::SettingsString. */
  function SettingsString(f: Fields, n: Counts, notail: bool): (s: string) {
    TailCount();
    HexDigits(Pack(f), 8) + if notail then [] else PrintAll(TAIL, Listed(n))
  }

  function Drop(s: string, k: nat): (t: string) {
    if k <= |s| then s[k..] else []
  }

  /** What Import scans: the text after a reply or command prefix. */
  function Body(state: string): (s: string) {
    if state == [] || state[0] != '~' then state
    else if |state| > 1 && state[1] == 'W' then Drop(state, 3)
    else Drop(state, 2)
  }

  /** The scanned word, of which Unpack takes the fields, and the numbers. */
  datatype Imported = Imported(mask: nat, counts: Counts)

  /** Numbers scanned replace the old ones, as far as they go. */
  function Overlay(n: Counts, ns: seq<int>): (r: Counts)
    ensures forall i :: 0 <= i < 4 ==> Listed(r)[i] == if i < |ns| then ns[i] else Listed(n)[i]
  {
    Counts(if |ns| > 0 then ns[0] else n.increment,
           if |ns| > 1 then ns[1] else n.interval,
           if |ns| > 2 then ns[2] else n.xrez,
           if |ns| > 3 then ns[3] else n.yrez)
  }

  /** TabletSettings::Import. Without a hexadecimal word the mask stays uninitialised, which
      the parameter `junk` stands for. */
  function ImportOf(state: string, n: Counts, junk: nat): (r: Imported) {
    var s := Body(state);
    match ScanHex(s, |s|)
    case Missing => Imported(junk, n)
    case Found(w, rest) => Imported(w, Overlay(n, ScanAll(TAIL, rest)))
  }

  /** Fixed-size packets: nine bytes exactly for Wacom IV with tilt. */
  function PacketSize(f: Fields): (size: nat) {
    if f.commandSet == WACOM_IIS && f.outputFormat == 0 then 7
    else if f.commandSet == WACOM_IV && f.tilt == 1 then 9
    else 7
  }

  /** The settings object, imported field by field. */
  class TabletSettings {
    var commandSet: nat
    var baudRate: nat
    var parity: nat
    var dataBits: nat
    var stopBits: nat
    var cts: nat
    var dsr: nat
    var transferMode: nat
    var outputFormat: nat
    var coordSys: nat
    var transferRate: nat
    var resolution: nat
    var origin: nat
    var oorData: nat
    var terminator: nat
    var pnp: nat
    var sensitivity: nat
    var readHeight: nat
    var mdm: nat
    var tilt: nat
    var mmComm: nat
    var orientation: nat
    var cursorData: nat
    var remoteMode: nat
    var increment: int
    var interval: int
    var xrez: int
    var yrez: int
    var packetSize: nat

    ghost function AllFields(): (f: Fields)
      reads this
    {
      Fields(commandSet, baudRate, parity, dataBits, stopBits, cts, dsr, transferMode,
             outputFormat, coordSys, transferRate, resolution, origin, oorData, terminator, pnp,
             sensitivity, readHeight, mdm, tilt, mmComm, orientation, cursorData, remoteMode)
    }

    ghost function AllCounts(): (n: Counts)
      reads this
    {
      Counts(increment, interval, xrez, yrez)
    }

    /** The sscanf of Import: numbers are stored as they are matched. */
    method ScanSetup(state: string, junk: nat) returns (mask: nat)
      modifies this`increment, this`interval, this`xrez, this`yrez
      ensures Imported(mask, AllCounts()) == ImportOf(state, old(AllCounts()), junk)
    {
      var s := Body(state);
      mask := junk;
      match ScanHex(s, |s|) {
        case Missing =>
        case Found(w, rest) =>
          mask := w;
          var ns := ScanAll(TAIL, rest);
          if |ns| > 0 {
            increment := ns[0];
          }
          if |ns| > 1 {
            interval := ns[1];
          }
          if |ns| > 2 {
            xrez := ns[2];
          }
          if |ns| > 3 {
            yrez := ns[3];
          }
      }
    }

    method TakeLink(mask: nat)
      modifies this`commandSet, this`baudRate, this`parity, this`dataBits, this`stopBits
      ensures commandSet == Two(mask / 0x40000000)
      ensures baudRate == Two(mask / 0x10000000)
      ensures parity == Two(mask / 0x4000000)
      ensures dataBits == One(mask / 0x2000000)
      ensures stopBits == One(mask / 0x1000000)
    {
      commandSet := Two(mask / 0x40000000);
      baudRate := Two(mask / 0x10000000);
      parity := Two(mask / 0x4000000);
      dataBits := One(mask / 0x2000000);
      stopBits := One(mask / 0x1000000);
    }

    method TakeFlow(mask: nat)
      modifies this`cts, this`dsr, this`transferMode, this`outputFormat, this`coordSys, this`transferRate
      ensures cts == One(mask / 0x800000)
      ensures dsr == One(mask / 0x400000)
      ensures transferMode == Two(mask / 0x100000)
      ensures outputFormat == One(mask / 0x80000)
      ensures coordSys == One(mask / 0x40000)
      ensures transferRate == Two(mask / 0x10000)
    {
      cts := One(mask / 0x800000);
      dsr := One(mask / 0x400000);
      transferMode := Two(mask / 0x100000);
      outputFormat := One(mask / 0x80000);
      coordSys := One(mask / 0x40000);
      transferRate := Two(mask / 0x10000);
    }

    method TakeSpace(mask: nat)
      modifies this`resolution, this`origin, this`oorData, this`terminator, this`pnp
      ensures resolution == Two(mask / 0x4000)
      ensures origin == One(mask / 0x2000)
      ensures oorData == One(mask / 0x1000)
      ensures terminator == Two(mask / 0x400)
      ensures pnp == One(mask / 0x100)
    {
      resolution := Two(mask / 0x4000);
      origin := One(mask / 0x2000);
      oorData := One(mask / 0x1000);
      terminator := Two(mask / 0x400);
      pnp := One(mask / 0x100);
    }

    method TakePen(mask: nat)
      modifies this`sensitivity, this`readHeight, this`mdm, this`tilt
      modifies this`mmComm, this`orientation, this`cursorData, this`remoteMode
      ensures sensitivity == One(mask / 0x80)
      ensures readHeight == One(mask / 0x40)
      ensures mdm == One(mask / 0x20)
      ensures tilt == One(mask / 0x10)
      ensures mmComm == One(mask / 0x8)
      ensures orientation == One(mask / 0x4)
      ensures cursorData == One(mask / 0x2)
      ensures remoteMode == One(mask / 0x1)
    {
      sensitivity := One(mask / 0x80);
      readHeight := One(mask / 0x40);
      mdm := One(mask / 0x20);
      tilt := One(mask / 0x10);
      mmComm := One(mask / 0x8);
      orientation := One(mask / 0x4);
      cursorData := One(mask / 0x2);
      remoteMode := One(mask / 0x1);
    }

    method TakeFields(mask: nat)
      modifies this
      ensures AllFields() == Unpack(mask) && AllCounts() == old(AllCounts())
    {
      hide One, Two;
      TakeLink(mask);
      TakeFlow(mask);
      TakeSpace(mask);
      TakePen(mask);
    }

    method DerivePacketSize()
      modifies this`packetSize
      ensures packetSize == PacketSize(AllFields())
    {
      packetSize := if commandSet == WACOM_IIS && outputFormat == 0 then 7
                    else if commandSet == WACOM_IV && tilt == 1 then 9
                    else 7;
    }

    method Import(state: string, junk: nat)
      modifies this
      ensures var got := ImportOf(state, old(AllCounts()), junk);
        AllFields() == Unpack(got.mask) && AllCounts() == got.counts
      ensures packetSize == PacketSize(AllFields())
    {
      var mask := ScanSetup(state, junk);
      TakeFields(mask);
      DerivePacketSize();
    }
  }

  // ---- the buffer of a printed setup ----

  /** Room for a printed setup and its terminating zero. */
  const SETUP_ROOM := 32

  lemma {:induction false} PairLength(fmt: seq<Item>, ns: seq<int>)
    requires |fmt| >= 2 && fmt[0].Lit? && fmt[1].Num? && |ns| == Numbers(fmt)
    ensures |ns| > 0 && Numbers(fmt[2..]) == |ns| - 1
    ensures |PrintAll(fmt, ns)| == 1 + |Print(ns[0], fmt[1].width)| + |PrintAll(fmt[2..], ns[1..])|
  {
    var more := fmt[1..];
    assert more[1..] == fmt[2..];
    assert Numbers(more) == 1 + Numbers(more[1..]);
    assert PrintAll(more, ns) == Print(ns[0], more[0].width) + PrintAll(more[1..], ns[1..]);
    hide Print;
  }

  /** A printed setup fits its buffer exactly when its numbers have at most nineteen
      characters together. */
  lemma {:induction false} SetupTextFits(f: Fields, n: Counts)
    ensures |SettingsString(f, n, false)| < SETUP_ROOM <==>
            |Print(n.increment, 3)| + |Print(n.interval, 2)| + |Print(n.xrez, 4)| + |Print(n.yrez, 4)| <= 19
  {
    TailCount();
    var ns := Listed(n);
    var a := TAIL[2..];
    var b := a[2..];
    var c := b[2..];
    assert c[2..] == [] && ns[1..][1..][1..][1..] == [] && PrintAll([], []) == [];
    hide Numbers, PrintAll, Print, Pack;
    PairLength(TAIL, ns);
    PairLength(a, ns[1..]);
    PairLength(b, ns[1..][1..]);
    PairLength(c, ns[1..][1..][1..]);
  }

  // ---- round trips ----

  lemma {:induction false} TailFits(n: Counts)
    ensures Numbers(TAIL) == 4 && Separated(TAIL) && Fits(TAIL, Listed(n))
  {
    TailCount();
    var a, b, c := TAIL[2..], TAIL[4..], TAIL[6..];
    assert TAIL[1..][1..] == a && a[1..][1..] == b && b[1..][1..] == c && c[1..][1..] == [];
    var ns := Listed(n);
    assert ns[1..][1..] == ns[2..] && ns[2..][1..] == ns[3..];
    assert Numbers(a) == 3 && Numbers(b) == 2 && Numbers(c) == 1;
    assert Fits(c, ns[3..]) && Fits(b, ns[2..]) && Fits(a, ns[1..]);
    assert Separated(c) && Separated(b) && Separated(a);
  }

  lemma {:induction false} TailScans(n: Counts, after: string)
    requires after != [] ==> !IsDigit(after[0])
    ensures Numbers(TAIL) == 4 && ScanAll(TAIL, PrintAll(TAIL, Listed(n)) + after) == Listed(n)
    ensures var s := PrintAll(TAIL, Listed(n)) + after; s != [] && s[0] == ','
  {
    TailFits(n);
    PrintedAllScans(TAIL, Listed(n), after);
  }

  /** Printing settings and importing the text restores every field up to its bits and all
      four numbers, whatever the importing object held before. */
  lemma {:induction false} PrintThenImport(f: Fields, n: Counts, was: Counts, junk: nat, after: string)
    requires after != [] ==> !IsHex(after[0])
    ensures var got := ImportOf(SettingsString(f, n, false) + after, was, junk);
      Unpack(got.mask) == Masked(f) && got.counts == n
  {
    UnpackPack(f);
    ImportPrinted(f, Pack(f), n, was, junk, after);
  }

  lemma {:induction false} ImportPrinted(f: Fields, w: nat, n: Counts, was: Counts, junk: nat, after: string)
    requires Pack(f) == w && w < WORD && (after != [] ==> !IsHex(after[0]))
    ensures ImportOf(SettingsString(f, n, false) + after, was, junk) == Imported(w, n)
  {
    ImportWord(w, n, was, junk, after);
    assert SettingsString(f, n, false) + after == HexDigits(w, 8) + (PrintAll(TAIL, Listed(n)) + after);
  }

  lemma {:induction false} FirstIsHex(w: nat, rest: string)
    ensures Body(HexDigits(w, 8) + rest) == HexDigits(w, 8) + rest
  {
    assert (HexDigits(w, 8) + rest)[0] == HexDigits(w, 8)[0];
  }

  lemma {:induction false} ImportWord(w: nat, n: Counts, was: Counts, junk: nat, after: string)
    requires w < WORD && (after != [] ==> !IsHex(after[0]))
    ensures Numbers(TAIL) == 4
    ensures ImportOf(HexDigits(w, 8) + (PrintAll(TAIL, Listed(n)) + after), was, junk) == Imported(w, n)
  {
    TailScans(n, after);
    var tail := PrintAll(TAIL, Listed(n)) + after;
    HexScans(w, tail, |HexDigits(w, 8) + tail|);
    FirstIsHex(w, tail);
  }

  lemma {:induction false} PrintPacked(f: Fields, v: nat, n: Counts)
    requires Pack(f) == v
    ensures Numbers(TAIL) == 4
    ensures SettingsString(f, n, false) == HexDigits(v, 8) + PrintAll(TAIL, Listed(n))
  {
    TailCount();
  }

  /** Importing any word and printing the result gives the word back without bit 9. */
  lemma {:induction false} ImportThenPrint(w: nat, n: Counts, was: Counts, junk: nat)
    requires w < WORD
    ensures Numbers(TAIL) == 4
    ensures var got := ImportOf(HexDigits(w, 8) + PrintAll(TAIL, Listed(n)), was, junk);
      SettingsString(Unpack(got.mask), got.counts, false)
      == HexDigits(w - One(w / 0x200) * 0x200, 8) + PrintAll(TAIL, Listed(n))
  {
    ImportBare(w, n, was, junk);
    PrintUnpacked(w, n);
  }

  lemma {:induction false} PrintUnpacked(w: nat, n: Counts)
    requires w < WORD
    ensures Numbers(TAIL) == 4
    ensures SettingsString(Unpack(w), n, false)
            == HexDigits(w - One(w / 0x200) * 0x200, 8) + PrintAll(TAIL, Listed(n))
  {
    hide Pack, Unpack, HexDigits, PrintAll, SettingsString;
    PackUnpack(w);
    PrintPacked(Unpack(w), w - One(w / 0x200) * 0x200, n);
  }

  lemma {:induction false} ImportBare(w: nat, n: Counts, was: Counts, junk: nat)
    requires w < WORD
    ensures Numbers(TAIL) == 4
    ensures ImportOf(HexDigits(w, 8) + PrintAll(TAIL, Listed(n)), was, junk) == Imported(w, n)
  {
    ImportWord(w, n, was, junk, []);
    assert PrintAll(TAIL, Listed(n)) + [] == PrintAll(TAIL, Listed(n));
  }

  // ---- the commands that carry a setup string ----

  /** SendUDSetupString's command for a settings bank. */
  function Command(setup: string, bank: nat): (c: string) {
    (if bank == 0 then ['~', '*'] else ['~', 'W'] + Dec(bank)) + setup + ['\r']
  }

  /** Import skips the command prefix exactly for banks of one digit, and so for all three. */
  lemma {:induction false} PrefixIsSkipped(setup: string, bank: nat)
    ensures Body(Command(setup, bank)) == setup + ['\r'] <==> bank < 10
  {
    var c := Command(setup, bank);
    if bank == 0 {
      assert c[2..] == setup + ['\r'];
    } else {
      var d := Dec(bank);
      DecLength(bank);
      assert c[3..] == d[1..] + (setup + ['\r']);
      assert |c[3..]| == |d| - 1 + |setup + ['\r']|;
    }
  }

  lemma {:induction false} DecLength(n: nat)
    ensures |Dec(n)| == 1 <==> n < 10
  {
  }

  lemma {:induction false} RunBefore(s: string, limit: nat, c: char)
    requires !IsDigit(c)
    ensures Run(s + [c], limit) == Run(s, limit)
    decreases |s|
  {
    if s != [] && limit > 0 && IsDigit(s[0]) {
      assert (s + [c])[1..] == s[1..] + [c];
      RunBefore(s[1..], limit - 1, c);
    }
  }

  lemma {:induction false} HexRunBefore(s: string, limit: nat, c: char)
    requires !IsHex(c)
    ensures HexRun(s + [c], limit) == HexRun(s, limit)
    decreases |s|
  {
    if s != [] && limit > 0 && IsHex(s[0]) {
      assert (s + [c])[1..] == s[1..] + [c];
      HexRunBefore(s[1..], limit - 1, c);
    }
  }

  lemma {:induction false} RunLimit(s: string, a: nat, b: nat)
    requires a >= |s| && b >= |s|
    ensures Run(s, a) == Run(s, b)
    decreases |s|
  {
    if s != [] && IsDigit(s[0]) {
      RunLimit(s[1..], a - 1, b - 1);
    }
  }

  lemma {:induction false} HexRunLimit(s: string, a: nat, b: nat)
    requires a >= |s| && b >= |s|
    ensures HexRun(s, a) == HexRun(s, b)
    decreases |s|
  {
    if s != [] && IsHex(s[0]) {
      HexRunLimit(s[1..], a - 1, b - 1);
    }
  }

  /** A scan of the text with a carriage return behind it: the return stays behind. */
  function Behind(r: Scan, c: char): (q: Scan) {
    match r
    case Missing => Missing
    case Found(v, rest) => Found(v, rest + [c])
  }

  lemma {:induction false} NatBefore(s: string, c: char)
    requires !IsDigit(c)
    ensures ScanNat(s + [c], |s| + 1) == Behind(ScanNat(s, |s|), c)
  {
    RunBefore(s, |s| + 1, c);
    RunLimit(s, |s| + 1, |s|);
    var k := Run(s, |s|);
    assert (s + [c])[..k] == s[..k] && (s + [c])[k..] == s[k..] + [c];
  }

  lemma {:induction false} IntBefore(s: string, c: char)
    requires !IsDigit(c) && c != '-'
    ensures ScanInt(s + [c], |s| + 1) == Behind(ScanInt(s, |s|), c)
  {
    if s != [] && s[0] == '-' {
      assert (s + [c])[1..] == s[1..] + [c];
      NatBefore(s[1..], c);
    } else {
      NatBefore(s, c);
    }
  }

  predicate Unlimited(fmt: seq<Item>) {
    fmt != [] ==> (fmt[0].Num? ==> fmt[0].limit == 0) && Unlimited(fmt[1..])
  }

  lemma {:induction false} AllBefore(fmt: seq<Item>, s: string, c: char)
    requires !IsDigit(c) && c != '-' && Unlimited(fmt) && Lit(c) !in fmt
    ensures ScanAll(fmt, s + [c]) == ScanAll(fmt, s)
    decreases |fmt|
  {
    if fmt != [] {
      match fmt[0] {
        case Lit(d) =>
          if s != [] && s[0] == d {
            assert (s + [c])[1..] == s[1..] + [c];
            AllBefore(fmt[1..], s[1..], c);
          } else {
            assert Lit(c) != fmt[0];
          }
        case Num(_, _) =>
          IntBefore(s, c);
          if ScanInt(s, |s|).Found? {
            AllBefore(fmt[1..], ScanInt(s, |s|).rest, c);
          }
      }
    }
  }

  lemma {:induction false} HexBefore(s: string, c: char)
    requires !IsHex(c)
    ensures ScanHex(s + [c], |s| + 1) == Behind(ScanHex(s, |s|), c)
  {
    HexRunBefore(s, |s| + 1, c);
    HexRunLimit(s, |s| + 1, |s|);
    var k := HexRun(s, |s|);
    assert (s + [c])[..k] == s[..k] && (s + [c])[k..] == s[k..] + [c];
  }

  lemma {:induction false} TailIsPlain()
    ensures Unlimited(TAIL) && Lit('\r') !in TAIL
  {
    var a, b, c := TAIL[2..], TAIL[4..], TAIL[6..];
    assert TAIL[1..][1..] == a && a[1..][1..] == b && b[1..][1..] == c && c[1..][1..] == [];
    assert Unlimited(c[1..]) && Unlimited(c);
    assert Unlimited(b[1..]) && Unlimited(b);
    assert Unlimited(a[1..]) && Unlimited(a);
    assert Unlimited(TAIL[1..]) && Unlimited(TAIL);
  }

  /** Sending a setup string to bank 0, 1 or 2 imports that string itself, although the
      tablet's command carries a prefix and a carriage return. */
  lemma {:induction false} SentSetupIsImported(setup: string, bank: nat, was: Counts, junk: nat)
    requires bank <= 2 && (setup != [] ==> setup[0] != '~')
    ensures ImportOf(Command(setup, bank), was, junk) == ImportOf(setup, was, junk)
  {
    PrefixIsSkipped(setup, bank);
    HexBefore(setup, '\r');
    TailIsPlain();
    if ScanHex(setup, |setup|).Found? {
      AllBefore(TAIL, ScanHex(setup, |setup|).rest, '\r');
    }
  }
}
