/** The serial port's own line reader: a second framer over the same stream, used while
    the daemon waits for the answer to a command. */
module ReadLine {
  import opened Bytes

  /** What one read of one byte yields. */
  datatype Arrival = Got(b: Byte) | Failed

  datatype Progress = Progress(inPacket: bool, text: seq<Byte>, done: bool)

  const START := Progress(false, [], false)

  /** A header starts a packet to be ignored, a tilde starts the text afresh, a newline or
      a failed read ends it. */
  function Take(l: Progress, a: Arrival): (r: Progress) {
    if l.done then l
    else if a.Failed? then l.(done := true)
    else if IsHeader(a.b) then l.(inPacket := true)
    else if a.b == TILDE then Progress(false, [TILDE], false)
    else if l.inPacket then l
    else if IsNewline(a.b) then l.(done := true)
    else l.(text := l.text + [a.b])
  }

  function TakeAll(l: Progress, arrivals: seq<Arrival>): (r: Progress) {
    if arrivals == [] then l
    else Take(TakeAll(l, arrivals[..|arrivals| - 1]), arrivals[|arrivals| - 1])
  }

  lemma {:induction false} TakeAllConcat(l: Progress, a: seq<Arrival>, b: seq<Arrival>)
    ensures TakeAll(l, a + b) == TakeAll(TakeAll(l, a), b)
    decreases |b|
  {
    if b == [] {
      assert a + b == a;
    } else {
      assert (a + b)[..|a + b| - 1] == a + b[..|b| - 1];
      TakeAllConcat(l, a, b[..|b| - 1]);
    }
  }

  lemma {:induction false} DoneStays(l: Progress, arrivals: seq<Arrival>)
    requires l.done
    ensures TakeAll(l, arrivals) == l
    decreases |arrivals|
  {
    if arrivals != [] {
      DoneStays(l, arrivals[..|arrivals| - 1]);
    }
  }

  /** The text of a line: no newline, no header byte, a tilde only in front. */
  ghost predicate IsLineText(text: seq<Byte>) {
    forall k :: 0 <= k < |text| ==> !IsNewline(text[k]) && !IsHeader(text[k]) && (text[k] == TILDE ==> k == 0)
  }

  lemma {:induction false} TextIsALine(arrivals: seq<Arrival>)
    ensures IsLineText(TakeAll(START, arrivals).text)
    decreases |arrivals|
  {
    if arrivals != [] {
      TextIsALine(arrivals[..|arrivals| - 1]);
    }
  }

  /** Length of a zero-terminated string. */
  function StrLen(s: seq<Byte>): (n: nat)
    ensures n <= |s| && (n < |s| ==> s[n] == 0) && forall k :: 0 <= k < n ==> s[k] != 0
  {
    if s == [] || s[0] == 0 then 0 else 1 + StrLen(s[1..])
  }

  lemma {:induction false} StrLenOfTerminated(text: seq<Byte>, rest: seq<Byte>)
    ensures StrLen(text + [0] + rest) == StrLen(text)
  {
    var s := text + [0] + rest;
    if text != [] && text[0] != 0 {
      assert s[1..] == text[1..] + [0] + rest;
      StrLenOfTerminated(text[1..], rest);
    }
  }

  /** The text never outgrows a buffer of the given size. */
  ghost predicate TextFits(arrivals: seq<Arrival>, size: nat) {
    forall k :: 0 <= k <= |arrivals| ==> |TakeAll(START, arrivals[..k]).text| < size
  }

  lemma {:induction false} FirstBursts(bursts: seq<seq<Arrival>>, n: nat, i: nat)
    requires n < |bursts| && i <= |bursts[n]|
    ensures var done := Flatten(bursts[..n]);
      |done| + i <= |Flatten(bursts)| && Flatten(bursts)[..|done| + i] == done + bursts[n][..i]
  {
    assert bursts == bursts[..n + 1] + bursts[n + 1..];
    FlattenConcat(bursts[..n + 1], bursts[n + 1..]);
    assert bursts[..n + 1][..n] == bursts[..n];
  }

  lemma {:induction false} NextArrival(bursts: seq<seq<Arrival>>, n: nat, i: nat)
    requires n < |bursts| && i < |bursts[n]|
    ensures var done := Flatten(bursts[..n]);
      TakeAll(START, done + bursts[n][..i + 1]) == Take(TakeAll(START, done + bursts[n][..i]), bursts[n][i])
  {
    var done := Flatten(bursts[..n]);
    assert (done + bursts[n][..i + 1])[..|done| + i] == done + bursts[n][..i];
  }

  lemma {:induction false} LineEnds(bursts: seq<seq<Arrival>>, n: nat, i: nat)
    requires n < |bursts| && i <= |bursts[n]|
    ensures var now := TakeAll(START, Flatten(bursts[..n]) + bursts[n][..i]);
      now.done ==> TakeAll(START, Flatten(bursts)) == now
  {
    var at, all := |Flatten(bursts[..n])| + i, Flatten(bursts);
    FirstBursts(bursts, n, i);
    assert all == all[..at] + all[at..];
    TakeAllConcat(START, all[..at], all[at..]);
    if TakeAll(START, all[..at]).done {
      DoneStays(TakeAll(START, all[..at]), all[at..]);
    }
  }

  /** One byte read: it goes to the buffer unless a packet is being skipped. */
  method Store(c: Byte, buffer: array<Byte>, at: nat, skipping: bool)
    returns (bufPtr: nat, inPacket: bool, gotLine: bool)
    requires at < buffer.Length
    modifies buffer
    ensures bufPtr <= buffer.Length
    ensures Progress(inPacket, buffer[..bufPtr], gotLine)
            == Take(Progress(skipping, old(buffer[..at]), false), Got(c))
  {
    bufPtr, inPacket, gotLine := at, skipping, false;
    if IsHeader(c) {
      inPacket := true;
    } else if c == TILDE {
      inPacket := false;
      bufPtr := 0;
    }
    if !inPacket {
      buffer[bufPtr] := c;
      if IsNewline(c) {
        gotLine := true;
      } else {
        bufPtr := bufPtr + 1;
      }
    }
  }

  /** Reads from a port that becomes ready once per burst and then times out. The text is
      written through a pointer into `buffer` and closed with a zero. */
  method ReadLine(bursts: seq<seq<Arrival>>, buffer: array<Byte>) returns (length: nat)
    requires TextFits(Flatten(bursts), buffer.Length)
    modifies buffer
    ensures var text := TakeAll(START, Flatten(bursts)).text;
      |text| < buffer.Length && buffer[..|text|] == text && buffer[|text|] == 0 && length == StrLen(text)
  {
    var bufPtr: nat, gotLine, inPacket := 0, false, false;
    ghost var all := Flatten(bursts);
    assert all[..0] == [] && |TakeAll(START, all[..0]).text| < buffer.Length;
    var n := 0;
    assert Flatten(bursts[..0]) == [];
    while !gotLine && n < |bursts|
      invariant 0 <= n <= |bursts| && bufPtr < buffer.Length
      invariant !gotLine ==> TakeAll(START, Flatten(bursts[..n])) == Progress(inPacket, buffer[..bufPtr], false)
      invariant gotLine ==> TakeAll(START, all).text == buffer[..bufPtr]
    {
      ghost var done := Flatten(bursts[..n]);
      var i := 0;
      assert done + bursts[n][..0] == done;
      while !gotLine && i < |bursts[n]|
        invariant 0 <= i <= |bursts[n]| && bufPtr < buffer.Length
        invariant TakeAll(START, done + bursts[n][..i]) == Progress(inPacket, buffer[..bufPtr], gotLine)
      {
        NextArrival(bursts, n, i);
        FirstBursts(bursts, n, i + 1);
        assert |TakeAll(START, all[..|done| + i + 1]).text| < buffer.Length;
        if bursts[n][i].Got? {
          bufPtr, inPacket, gotLine := Store(bursts[n][i].b, buffer, bufPtr, inPacket);
        } else {
          gotLine := true;
        }
        i := i + 1;
      }
      LineEnds(bursts, n, i);
      assert i == |bursts[n]| ==> bursts[n][..i] == bursts[n];
      assert bursts[..n + 1][..n] == bursts[..n];
      n := n + 1;
    }
    assert bursts[..|bursts|] == bursts;
    buffer[bufPtr] := 0;
    assert buffer[..] == buffer[..bufPtr] + [0] + buffer[bufPtr + 1..];
    StrLenOfTerminated(buffer[..bufPtr], buffer[bufPtr + 1..]);
    length := StrLen(buffer[..]);
  }
}
