/** Printing and scanning numbers the way printf and sscanf do. */
module Text {
  predicate IsDigit(c: char) {
    '0' <= c <= '9'
  }

  predicate AllDigits(s: string) {
    forall i :: 0 <= i < |s| ==> IsDigit(s[i])
  }

  function DigitChar(d: nat): (c: char)
    requires d < 10
    ensures IsDigit(c) && DigitVal(c) == d
  {
    ('0' as int + d) as char
  }

  function DigitVal(c: char): (d: nat)
    requires IsDigit(c)
    ensures d < 10
  {
    c as int - '0' as int
  }

  function Dec(n: nat): (s: string)
    ensures s != [] && AllDigits(s)
  {
    (if n < 10 then [] else Dec(n / 10)) + [DigitChar(n % 10)]
  }

  function Pad(s: string, width: nat): (p: string)
    ensures |p| == if |s| < width then width else |s|
    decreases width - |s|
  {
    if |s| < width then Pad(['0'] + s, width) else s
  }


  /** A decimal with at least `width` characters, padded with zeros. */
  function Print(n: int, width: nat): (s: string) {
    if n >= 0 then Pad(Dec(n), width)
    else ['-'] + Pad(Dec(-n), if width > 0 then width - 1 else 0)
  }

  /** The value of a run of digits. */
  function Value(s: string): (n: nat)
    requires AllDigits(s)
  {
    if s == [] then 0 else Value(s[..|s| - 1]) * 10 + DigitVal(s[|s| - 1])
  }

  /** Length of the digits in front, at most `limit` of them. */
  function Run(s: string, limit: nat): (k: nat)
    ensures k <= |s| && k <= limit && AllDigits(s[..k])
  {
    if s == [] || limit == 0 || !IsDigit(s[0]) then 0 else 1 + Run(s[1..], limit - 1)
  }

  datatype Scan = Missing | Found(value: int, rest: string)

  function ScanNat(s: string, limit: nat): (r: Scan) {
    var k := Run(s, limit);
    if k == 0 then Missing else Found(Value(s[..k]), s[k..])
  }

  /** A number in front, at most `limit` characters of it; no blanks or plus sign. */
  function ScanInt(s: string, limit: nat): (r: Scan) {
    if s != [] && s[0] == '-' && limit > 0 then
      match ScanNat(s[1..], limit - 1)
      case Missing => Missing
      case Found(v, rest) => Found(0 - v, rest)
    else
      ScanNat(s, limit)
  }

  lemma {:induction false} RunTakes(a: string, b: string, limit: nat)
    requires AllDigits(a)
    requires |a| <= limit && (b != [] ==> !IsDigit(b[0]) || limit == |a|)
    ensures Run(a + b, limit) == |a|
    decreases |a|
  {
    if a == [] {
      assert a + b == b;
    } else {
      assert (a + b)[1..] == a[1..] + b;
      RunTakes(a[1..], b, limit - 1);
    }
  }

  lemma {:induction false} ValueOfDec(n: nat)
    ensures Value(Dec(n)) == n
  {
    var s := Dec(n);
    if n < 10 {
      assert s == [DigitChar(n)] && s[..0] == [];
    } else {
      assert s[..|s| - 1] == Dec(n / 10);
      ValueOfDec(n / 10);
    }
  }

  lemma {:induction false} LeadingZero(s: string)
    requires AllDigits(s)
    ensures Value(['0'] + s) == Value(s)
    decreases |s|
  {
    var z := ['0'] + s;
    if s == [] {
      assert z[..0] == [];
    } else {
      assert z[..|z| - 1] == ['0'] + s[..|s| - 1];
      LeadingZero(s[..|s| - 1]);
    }
  }

  lemma {:induction false} ValueOfPad(s: string, width: nat)
    requires AllDigits(s)
    ensures AllDigits(Pad(s, width)) && Value(Pad(s, width)) == Value(s)
    decreases width - |s|
  {
    if |s| < width {
      LeadingZero(s);
      ValueOfPad(['0'] + s, width);
    }
  }

  lemma {:induction false} DigitsScan(d: string, rest: string, limit: nat)
    requires d != [] && AllDigits(d) && |d| <= limit && (rest != [] ==> !IsDigit(rest[0]))
    ensures ScanNat(d + rest, limit) == Found(Value(d), rest)
  {
    var s := d + rest;
    RunTakes(d, rest, limit);
    assert s[..|d|] == d && s[|d|..] == rest;
  }

  lemma {:induction false} PadScans(n: nat, width: nat, rest: string, limit: nat)
    requires |Pad(Dec(n), width)| <= limit && (rest != [] ==> !IsDigit(rest[0]))
    ensures ScanNat(Pad(Dec(n), width) + rest, limit) == Found(n, rest)
    ensures IsDigit(Pad(Dec(n), width)[0])
  {
    ValueOfDec(n);
    ValueOfPad(Dec(n), width);
    DigitsScan(Pad(Dec(n), width), rest, limit);
  }

  lemma {:induction false} PlainScans(d: string, v: nat, rest: string, limit: nat)
    requires d != [] && IsDigit(d[0]) && ScanNat(d + rest, limit) == Found(v, rest)
    ensures ScanInt(d + rest, limit) == Found(v, rest)
  {
    assert (d + rest)[0] == d[0];
  }

  lemma {:induction false} MinusScans(d: string, v: nat, rest: string, limit: nat)
    requires limit > 0 && ScanNat(d + rest, limit - 1) == Found(v, rest)
    ensures ScanInt(['-'] + d + rest, limit) == Found(0 - v, rest)
  {
    Join(['-'], d, rest);
    Front('-', d + rest);
  }

  /** A printed number followed by something else scans back, if the limit allows it. */
  lemma {:induction false} PrintedScans(n: int, width: nat, rest: string, limit: nat)
    requires |Print(n, width)| <= limit && (rest != [] ==> !IsDigit(rest[0]))
    ensures ScanInt(Print(n, width) + rest, limit) == Found(n, rest)
  {
    hide ScanInt, ScanNat, Pad, Dec;
    if n >= 0 {
      PadScans(n, width, rest, limit);
      PlainScans(Pad(Dec(n), width), n, rest, limit);
    } else {
      var w := if width > 0 then width - 1 else 0;
      PadScans(-n, w, rest, limit - 1);
      MinusScans(Pad(Dec(-n), w), -n, rest, limit);
    }
  }

  /** Different numbers print differently. */
  lemma {:induction false} DecInjective(a: nat, b: nat)
    requires Dec(a) == Dec(b)
    ensures a == b
  {
    ValueOfDec(a);
    ValueOfDec(b);
  }

  // ---- scanning a list of numbers between fixed text ----

  /** A format: numbers with a minimal print width and a scan limit, where 0 means none, and
      literal characters. */
  datatype Item = Num(width: nat, limit: nat) | Lit(c: char)

  function Numbers(fmt: seq<Item>): (n: nat) {
    if fmt == [] then 0 else (if fmt[0].Num? then 1 else 0) + Numbers(fmt[1..])
  }

  function PrintAll(fmt: seq<Item>, ns: seq<int>): (s: string)
    requires |ns| == Numbers(fmt)
  {
    if fmt == [] then []
    else match fmt[0]
      case Lit(c) => [c] + PrintAll(fmt[1..], ns)
      case Num(width, _) => Print(ns[0], width) + PrintAll(fmt[1..], ns[1..])
  }

  /** The numbers scanned before the first mismatch. */
  function ScanAll(fmt: seq<Item>, s: string): (ns: seq<int>)
    ensures |ns| <= Numbers(fmt)
  {
    if fmt == [] then []
    else match fmt[0]
      case Lit(c) => if s != [] && s[0] == c then ScanAll(fmt[1..], s[1..]) else []
      case Num(_, limit) =>
        match ScanInt(s, if limit == 0 then |s| else limit)
        case Missing => []
        case Found(v, rest) => [v] + ScanAll(fmt[1..], rest)
  }

  /** Every number is followed by a literal that is not a digit, or ends the format. */
  predicate Separated(fmt: seq<Item>) {
    |fmt| >= 2 ==> (fmt[0].Num? ==> fmt[1].Lit? && !IsDigit(fmt[1].c)) && Separated(fmt[1..])
  }

  lemma {:induction false} PairInFront(fmt: seq<Item>)
    requires |fmt| >= 2 && fmt[0].Lit? && fmt[1].Num? && (|fmt| > 2 ==> fmt[2].Lit? && !IsDigit(fmt[2].c))
    ensures Numbers(fmt) == 1 + Numbers(fmt[2..])
    ensures Separated(fmt[2..]) ==> Separated(fmt)
  {
    var more := fmt[1..];
    assert more[1..] == fmt[2..];
    assert Numbers(more) == 1 + Numbers(more[1..]);
    if |fmt| > 2 {
      assert more[1] == fmt[2];
    }
    assert Separated(more[1..]) ==> Separated(more);
  }

  /** No number is longer than the scanner's limit for it. */
  predicate Fits(fmt: seq<Item>, ns: seq<int>)
    requires |ns| == Numbers(fmt)
  {
    fmt != [] ==>
      if fmt[0].Lit? then Fits(fmt[1..], ns)
      else (fmt[0].limit == 0 || |Print(ns[0], fmt[0].width)| <= fmt[0].limit) && Fits(fmt[1..], ns[1..])
  }

  lemma {:induction false} ItemScans(item: Item, v: int, s: string)
    requires item.Num? && (item.limit == 0 || |Print(v, item.width)| <= item.limit) && (s != [] ==> !IsDigit(s[0]))
    ensures var t := Print(v, item.width) + s;
      ScanInt(t, if item.limit == 0 then |t| else item.limit) == Found(v, s)
  {
    var t := Print(v, item.width) + s;
    PrintedScans(v, item.width, s, if item.limit == 0 then |t| else item.limit);
  }

  lemma {:induction false} NumberStops(fmt: seq<Item>, ns: seq<int>, tail: string)
    requires |ns| == Numbers(fmt) && Separated(fmt) && fmt != [] && fmt[0].Num? && (tail != [] ==> !IsDigit(tail[0]))
    ensures var s := PrintAll(fmt[1..], ns[1..]) + tail; s != [] ==> !IsDigit(s[0])
  {
    if |fmt| >= 2 {
      assert fmt[1..][0] == fmt[1];
      assert PrintAll(fmt[1..], ns[1..])[0] == fmt[1].c;
    }
  }

  lemma {:induction false} Join(a: string, b: string, c: string)
    ensures (a + b) + c == a + (b + c)
  {
  }

  lemma {:induction false} Front(c: char, s: string)
    ensures ([c] + s)[0] == c && ([c] + s)[1..] == s
  {
  }

  lemma {:induction false} LiteralScans(fmt: seq<Item>, ns: seq<int>, tail: string)
    requires |ns| == Numbers(fmt) && fmt != [] && fmt[0].Lit?
    requires ScanAll(fmt[1..], PrintAll(fmt[1..], ns) + tail) == ns
    ensures ScanAll(fmt, PrintAll(fmt, ns) + tail) == ns
  {
    Join([fmt[0].c], PrintAll(fmt[1..], ns), tail);
    Front(fmt[0].c, PrintAll(fmt[1..], ns) + tail);
  }

  lemma {:induction false} NumberScans(fmt: seq<Item>, ns: seq<int>, tail: string)
    requires |ns| == Numbers(fmt) && Separated(fmt) && Fits(fmt, ns) && (tail != [] ==> !IsDigit(tail[0]))
    requires fmt != [] && fmt[0].Num?
    requires ScanAll(fmt[1..], PrintAll(fmt[1..], ns[1..]) + tail) == ns[1..]
    ensures ScanAll(fmt, PrintAll(fmt, ns) + tail) == ns
  {
    var s := PrintAll(fmt[1..], ns[1..]) + tail;
    NumberStops(fmt, ns, tail);
    ItemScans(fmt[0], ns[0], s);
    Join(Print(ns[0], fmt[0].width), PrintAll(fmt[1..], ns[1..]), tail);
    assert ns == [ns[0]] + ns[1..];
  }

  /** Round trip of a whole message; anything but a digit may follow it. */
  lemma {:induction false} PrintedAllScans(fmt: seq<Item>, ns: seq<int>, tail: string)
    requires |ns| == Numbers(fmt) && Separated(fmt) && Fits(fmt, ns) && (tail != [] ==> !IsDigit(tail[0]))
    ensures ScanAll(fmt, PrintAll(fmt, ns) + tail) == ns
    decreases |fmt|
  {
    if fmt != [] {
      if fmt[0].Lit? {
        PrintedAllScans(fmt[1..], ns, tail);
        LiteralScans(fmt, ns, tail);
      } else {
        PrintedAllScans(fmt[1..], ns[1..], tail);
        NumberScans(fmt, ns, tail);
      }
    }
  }

  // ---- hexadecimal ----

  predicate IsHex(c: char) {
    IsDigit(c) || 'A' <= c <= 'F' || 'a' <= c <= 'f'
  }

  predicate AllHex(s: string) {
    forall i :: 0 <= i < |s| ==> IsHex(s[i])
  }

  function HexVal(c: char): (d: nat)
    requires IsHex(c)
    ensures d < 16
  {
    if IsDigit(c) then c as int - '0' as int
    else if 'A' <= c <= 'F' then c as int - 'A' as int + 10
    else c as int - 'a' as int + 10
  }

  function HexChar(d: nat): (c: char)
    requires d < 16
    ensures IsHex(c) && HexVal(c) == d
  {
    (if d < 10 then '0' as int + d else 'A' as int + d - 10) as char
  }

  /** The low digits of a word, as many as asked for. */
  function HexDigits(w: nat, digits: nat): (s: string)
    ensures |s| == digits && AllHex(s)
  {
    if digits == 0 then [] else HexDigits(w / 16, digits - 1) + [HexChar(w % 16)]
  }

  function HexValue(s: string): (w: nat)
    requires AllHex(s)
  {
    if s == [] then 0 else HexValue(s[..|s| - 1]) * 16 + HexVal(s[|s| - 1])
  }

  /** Length of the hexadecimal digits in front, at most `limit` of them. */
  function HexRun(s: string, limit: nat): (k: nat)
    ensures k <= |s| && k <= limit && AllHex(s[..k])
  {
    if s == [] || limit == 0 || !IsHex(s[0]) then 0 else 1 + HexRun(s[1..], limit - 1)
  }

  function ScanHex(s: string, limit: nat): (r: Scan)
    ensures r.Found? ==> r.value >= 0
  {
    var k := HexRun(s, limit);
    if k == 0 then Missing else Found(HexValue(s[..k]), s[k..])
  }

  lemma {:induction false} HexRunTakes(a: string, b: string, limit: nat)
    requires AllHex(a) && |a| <= limit && (b != [] ==> !IsHex(b[0]))
    ensures HexRun(a + b, limit) == |a|
    decreases |a|
  {
    if a == [] {
      assert a + b == b;
    } else {
      assert (a + b)[1..] == a[1..] + b;
      HexRunTakes(a[1..], b, limit - 1);
    }
  }

  /** A word without the digits shown. */
  function Shifted(w: nat, digits: nat): (v: nat) {
    if digits == 0 then w else Shifted(w / 16, digits - 1)
  }

  lemma {:induction false} HexDigitsKeepValue(w: nat, digits: nat)
    requires Shifted(w, digits) == 0
    ensures HexValue(HexDigits(w, digits)) == w
  {
    var s := HexDigits(w, digits);
    if digits != 0 {
      assert s[..|s| - 1] == HexDigits(w / 16, digits - 1);
      HexDigitsKeepValue(w / 16, digits - 1);
    }
  }

  const WORD := 0x1_0000_0000

  lemma {:induction false} EightDigitsSuffice(w: nat)
    requires w < WORD
    ensures Shifted(w, 8) == 0
  {
    assert Shifted(w, 8) == Shifted(w / 16, 7) == Shifted(w / 16 / 16, 6) == Shifted(w / 16 / 16 / 16, 5);
    var v := w / 16 / 16 / 16;
    assert v < 0x10_0000;
    assert Shifted(v, 5) == Shifted(v / 16, 4) == Shifted(v / 16 / 16, 3) == Shifted(v / 16 / 16 / 16, 2);
    var u := v / 16 / 16 / 16;
    assert u < 0x100;
    assert Shifted(u, 2) == Shifted(u / 16, 1) == Shifted(u / 16 / 16, 0);
  }

  /** A printed word scans back, if no further hexadecimal digit follows. */
  lemma {:induction false} HexScans(w: nat, rest: string, limit: nat)
    requires w < WORD && limit >= 8 && (rest != [] ==> !IsHex(rest[0]))
    ensures ScanHex(HexDigits(w, 8) + rest, limit) == Found(w, rest)
  {
    var h := HexDigits(w, 8);
    HexRunTakes(h, rest, limit);
    assert (h + rest)[..8] == h && (h + rest)[8..] == rest;
    EightDigitsSuffice(w);
    HexDigitsKeepValue(w, 8);
  }
}
