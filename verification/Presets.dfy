/** The presets of the preference pane: their menu, the active one, and what a report of
    the daemon does to them. */
module Presets {
  import opened Text
  import opened Geometry

  datatype Preset = Preset(name: string, layout: Layout, screenWidth: int, screenHeight: int,
                           scaling: real, constrained: bool)

  // ---- the menu ----

  /** The title tried for a name after `uid` collisions. */
  function Candidate(base: string, uid: nat): (title: string) {
    if uid == 0 then base else base + [' '] + Dec(uid)
  }

  lemma {:induction false} CandidatesDiffer(base: string, a: nat, b: nat)
    requires a < b
    ensures Candidate(base, a) != Candidate(base, b)
  {
    var front := base + [' '];
    assert Candidate(base, b) == front + Dec(b);
    if a > 0 && Candidate(base, a) == Candidate(base, b) {
      assert Candidate(base, a) == front + Dec(a);
      assert (front + Dec(a))[|front|..] == Dec(a) && (front + Dec(b))[|front|..] == Dec(b);
      DecInjective(a, b);
      assert false;
    }
  }

  /** The candidates below `uid` are all taken. */
  ghost predicate Taken(base: string, used: seq<string>, uid: nat) {
    forall k :: 0 <= k < uid ==> Candidate(base, k) in used
  }

  function Without<T>(s: seq<T>, i: nat): (r: seq<T>)
    requires i < |s|
    ensures |r| == |s| - 1
  {
    s[..i] + s[i + 1..]
  }

  lemma {:induction false} StaysIn<T>(s: seq<T>, i: nat, v: T)
    requires i < |s| && v in s && v != s[i]
    ensures v in Without(s, i)
  {
    var j :| 0 <= j < |s| && s[j] == v;
    assert Without(s, i)[if j < i then j else j - 1] == v;
  }

  /** Pigeonhole: a menu can hold no more candidates than it has entries. */
  lemma {:induction false} NoMoreThanUsed(base: string, used: seq<string>, uid: nat)
    requires Taken(base, used, uid)
    ensures uid <= |used|
    decreases uid
  {
    if uid > 0 {
      var last := Candidate(base, uid - 1);
      assert last in used;
      var i :| 0 <= i < |used| && used[i] == last;
      forall k | 0 <= k < uid - 1 ensures Candidate(base, k) in Without(used, i) {
        CandidatesDiffer(base, k, uid - 1);
        StaysIn(used, i, Candidate(base, k));
      }
      NoMoreThanUsed(base, Without(used, i), uid - 1);
    }
  }

  /** The least number from `uid` on whose candidate is free. */
  ghost function FreeFrom(base: string, used: seq<string>, uid: nat): (r: nat)
    requires Taken(base, used, uid)
    ensures Taken(base, used, r) && Candidate(base, r) !in used
    decreases |used| - uid
  {
    if Candidate(base, uid) in used then
      NoMoreThanUsed(base, used, uid + 1);
      FreeFrom(base, used, uid + 1)
    else
      uid
  }

  lemma {:induction false} FreeIsUnique(base: string, used: seq<string>, a: nat, b: nat)
    requires Taken(base, used, a) && Candidate(base, a) !in used
    requires Taken(base, used, b) && Candidate(base, b) !in used
    ensures a == b
  {
  }

  /** The titles of the menu for a list of names. */
  ghost function Titles(names: seq<string>): (titles: seq<string>)
    ensures |titles| == |names|
  {
    if names == [] then []
    else
      var before, base := Titles(names[..|names| - 1]), names[|names| - 1];
      before + [Candidate(base, FreeFrom(base, before, 0))]
  }

  predicate Distinct(s: seq<string>) {
    forall i, j :: 0 <= i < j < |s| ==> s[i] != s[j]
  }

  /** No two entries of the menu have the same title, so that a title finds its preset. */
  lemma {:induction false} TitlesDiffer(names: seq<string>)
    ensures Distinct(Titles(names))
    decreases |names|
  {
    if names != [] {
      TitlesDiffer(names[..|names| - 1]);
    }
  }

  lemma {:induction false} TitlesOfPrefix(names: seq<string>, n: nat)
    requires n <= |names|
    ensures Titles(names)[..n] == Titles(names[..n])
    decreases |names|
  {
    if n < |names| {
      TitlesOfPrefix(names[..|names| - 1], n);
      assert names[..|names| - 1][..n] == names[..n];
    } else {
      assert names[..n] == names;
    }
  }

  /** Entry i belongs to preset i: its title is that preset's name, numbered with the
      least number that is still free among the entries before it. */
  lemma {:induction false} EntryIsPreset(names: seq<string>, i: nat) returns (uid: nat)
    requires i < |names|
    ensures Titles(names)[i] == Candidate(names[i], uid)
    ensures Taken(names[i], Titles(names)[..i], uid) && Candidate(names[i], uid) !in Titles(names)[..i]
  {
    TitlesOfPrefix(names, i);
    TitlesOfPrefix(names, i + 1);
    assert names[..i + 1][..i] == names[..i];
    uid := FreeFrom(names[i], Titles(names[..i]), 0);
    assert Titles(names)[i] == Titles(names)[..i + 1][i];
  }

  /** The menu shows the names themselves exactly when no name occurs twice. */
  lemma {:induction false} TitlesAreNames(names: seq<string>)
    ensures Titles(names) == names <==> Distinct(names)
    decreases |names|
  {
    if Titles(names) == names {
      TitlesDiffer(names);
    }
    if Distinct(names) && names != [] {
      var n := |names| - 1;
      TitlesAreNames(names[..n]);
      assert names[n] !in names[..n];
      FreeIsUnique(names[n], names[..n], FreeFrom(names[n], names[..n], 0), 0);
      assert names == names[..n] + [names[n]];
    }
  }

  // ---- matching a report ----

  /** What a geometry report of the daemon says. */
  datatype Report = Report(layout: Layout, scaling: real)

  /** The comparison as the code evaluates it: the tip is assigned, not compared, and so
      only has to be mapped to something. */
  predicate Matches(p: Preset, r: Report) {
    var a, b := p.layout, r.layout;
    && a.tl == b.tl && a.tt == b.tt && a.tr == b.tr && a.tb == b.tb
    && a.sl == b.sl && a.st == b.st && a.sr == b.sr && a.sb == b.sb
    && b.tip != 0 && a.side1 == b.side1 && a.side2 == b.side2 && a.eraser == b.eraser
    && a.mouse == b.mouse && -0.02 < p.scaling - r.scaling < 0.02
  }

  /** The comparison the names of the code promise. */
  predicate Agrees(p: Preset, r: Report) {
    p.layout == r.layout && -0.02 < p.scaling - r.scaling < 0.02
  }

  /** When the two comparisons give the same answer. */
  lemma {:induction false} TipIsIgnored(p: Preset, r: Report)
    ensures (Matches(p, r) <==> Agrees(p, r))
            <==> !Agrees(p.(layout := p.layout.(tip := r.layout.tip)), r)
                 || (r.layout.tip != 0 <==> p.layout.tip == r.layout.tip)
  {
  }

  /** The daemon's answer to a preset's own message matches that preset exactly when no
      rectangle is inside out, the screen values fit sixteen bits, the tip is mapped, and
      the daemon already had the preset's mouse scaling: the message does not set it. */
  lemma {:induction false} AnswerMatchesItself(ps: seq<Preset>, i: nat, r: Report, xscale: int, yscale: int,
                                               width: int, height: int)
    requires i < |ps| && NonNegative(ps[i].layout) && 0 < width <= 32768 && 0 < height <= 32768
    requires r.layout == Reported(ps[i].layout, xscale, yscale, width, height)
    ensures Matches(ps[i], r) <==> && Ordered(ps[i].layout) && ScreenFits(ps[i].layout) && ps[i].layout.tip != 0
                                   && -0.02 < ps[i].scaling - r.scaling < 0.02
    ensures Matches(ps[i], r) ==> 0 <= FirstMatch(ps, r) <= i
    ensures ps[i].layout.tip == 0 ==> FirstMatch(ps, r) == -1
  {
    var g := ps[i].layout;
    ReportedIsGiven(g, xscale, yscale, width, height);
    assert r.layout.tip == g.tip && r.layout.side1 == g.side1 && r.layout.side2 == g.side2;
    assert r.layout.eraser == g.eraser && r.layout.mouse == g.mouse;
    hide Reported, Ordered, ScreenFits;
    assert Matches(ps[i], r) <==> r.layout == g && g.tip != 0 && -0.02 < ps[i].scaling - r.scaling < 0.02;
  }

  function Fold(c: char): (d: char) {
    if 'A' <= c <= 'Z' then c - 'A' + 'a' else c
  }

  /** Equal but for the case of letters. */
  predicate SameLetters(a: string, b: string) {
    |a| == |b| && forall i :: 0 <= i < |a| ==> Fold(a[i]) == Fold(b[i])
  }

  /** The two letters of a pair lie 32 characters apart. */
  lemma {:induction false} CaseIsIgnored(a: string, b: string)
    ensures SameLetters(a, b) <==>
            |a| == |b| && forall i :: 0 <= i < |a| ==>
              a[i] == b[i] || ('A' <= a[i] <= 'Z' && b[i] as int == a[i] as int + 32)
              || ('A' <= b[i] <= 'Z' && a[i] as int == b[i] as int + 32)
  {
  }

  function FirstMatch(ps: seq<Preset>, r: Report): (found: int)
    ensures -1 <= found < |ps|
    ensures found >= 0 ==> Matches(ps[found], r)
    ensures forall i :: 0 <= i < (if found < 0 then |ps| else found) ==> !Matches(ps[i], r)
  {
    if ps == [] then -1
    else
      var before := FirstMatch(ps[..|ps| - 1], r);
      if before >= 0 then before else if Matches(ps[|ps| - 1], r) then |ps| - 1 else -1
  }

  function FirstNamed(ps: seq<Preset>, name: string): (found: int)
    ensures -1 <= found < |ps|
    ensures found >= 0 ==> SameLetters(ps[found].name, name)
    ensures forall i :: 0 <= i < (if found < 0 then |ps| else found) ==> !SameLetters(ps[i].name, name)
  {
    if ps == [] then -1
    else
      var before := FirstNamed(ps[..|ps| - 1], name);
      if before >= 0 then before else if SameLetters(ps[|ps| - 1].name, name) then |ps| - 1 else -1
  }

  /** The preset a report is taken to be about: one that matches, else the one called Custom. */
  function Found(ps: seq<Preset>, r: Report, custom: string): (found: int)
    ensures -1 <= found < |ps|
  {
    if FirstMatch(ps, r) >= 0 then FirstMatch(ps, r) else FirstNamed(ps, custom)
  }

  /** A preset with a report taken over. A tablet area without extent is not. */
  function Updated(p: Preset, r: Report, width: int, height: int): (q: Preset) {
    var a, b := p.layout, r.layout;
    var area := if b.tr > b.tl && b.tb > b.tt then b else b.(tl := a.tl, tt := a.tt, tr := a.tr, tb := a.tb);
    Preset(p.name, area, width, height, r.scaling, false)
  }

  // ---- the list and the active preset ----

  /** The stored presets, the active one with its index, the titles of the menu, and the
      entry that it shows. */
  datatype State = State(presets: seq<Preset>, active: Preset, index: nat, titles: seq<string>, shown: int)

  /** The menu's titles are those of the stored names. */
  ghost predicate MenuFits(s: State) {
    s.titles == Titles(NamesOf(s.presets))
  }

  /** A state whose menu has just been filled. */
  ghost function Filled(presets: seq<Preset>, active: Preset, index: nat): (s: State)
    ensures MenuFits(s)
  {
    State(presets, active, index, Titles(NamesOf(presets)), if presets == [] then -1 else index)
  }

  /** There is an active preset, and it is the stored one. */
  predicate Consistent(s: State) {
    s.index < |s.presets| && s.active == s.presets[s.index]
  }

  ghost function Add(s: State, name: string): (t: State) {
    var p := s.active.(name := name);
    Filled(s.presets + [p], p, |s.presets|)
  }

  function Select(s: State, i: nat): (t: State)
    requires i < |s.presets|
  {
    s.(active := s.presets[i], index := i, shown := i)
  }

  ghost function Delete(s: State): (t: State)
    requires s.index < |s.presets|
  {
    var rest := Without(s.presets, s.index);
    var index := if s.index > 0 && s.index >= |rest| then s.index - 1 else s.index;
    Filled(rest, if index < |rest| then rest[index] else s.active, index)
  }

  function Change(s: State, p: Preset): (t: State)
    requires s.index < |s.presets|
  {
    s.(presets := s.presets[s.index := p], active := p)
  }

  ghost function Rename(s: State, name: string): (t: State)
    requires s.index < |s.presets|
  {
    var p := s.active.(name := name);
    if name == "" then s else Filled(s.presets[s.index := p], p, s.index)
  }

  /** activatePresetMatching: the active preset may change, but not its index. */
  ghost function Activate(s: State, r: Report, custom: string): (t: State) {
    var found := Found(s.presets, r, custom);
    if found == -1 then Add(s, custom)
    else if found != s.index then s.(active := s.presets[found], shown := found)
    else s
  }

  /** geometryReceived, with the size of the screen chooser. */
  ghost function Receive(s: State, r: Report, custom: string, width: int, height: int): (t: State)
    requires s.index < |s.presets|
  {
    var a := Activate(s, r, custom);
    Change(a, Updated(a.active, r, width, height))
  }

  /** Deleting keeps a consistent state exactly when it is not the only preset. */
  lemma {:induction false} DeleteKeepsConsistent(s: State)
    requires Consistent(s)
    ensures Consistent(Delete(s)) <==> |s.presets| > 1
  {
  }

  /** Deleting takes the selected preset out and leaves the others in their order; selected
      is then the one after it, or the last one if it was that. */
  lemma {:induction false} DeleteKeepsOthers(s: State)
    requires Consistent(s)
    ensures var t, n := Delete(s), |s.presets| - 1;
      && |t.presets| == n
      && (forall j :: 0 <= j < s.index ==> t.presets[j] == s.presets[j])
      && (forall j :: s.index < j <= n ==> t.presets[j - 1] == s.presets[j])
      && multiset(t.presets) == multiset(s.presets) - multiset{s.presets[s.index]}
      && (n > 0 ==> t.active == s.presets[if s.index < n then s.index + 1 else n - 1])
  {
    var i := s.index;
    assert s.presets == s.presets[..i] + [s.presets[i]] + s.presets[i + 1..];
  }

  /** The other actions of the pane keep every preset but the active one. Adding puts a
      copy of it, under its new name, at the end and makes that the active one; selecting
      changes no preset at all. */
  lemma {:induction false} ActionsKeepOthers(s: State, a: Action, custom: string)
    requires Consistent(s) && Enabled(s, a) && !a.Receiving? && !a.Deleting?
    ensures var t, n := Apply(s, a, custom), |s.presets|;
      && (forall j :: 0 <= j < n && j != s.index ==> t.presets[j] == s.presets[j])
      && |t.presets| == (if a.Adding? then n + 1 else n)
      && t.index == (match a case Adding(_) => n case Selecting(i) => i case _ => s.index)
      && (a.Adding? || a.Selecting? ==> t.presets[s.index] == s.presets[s.index])
      && (a.Adding? ==> t.active.name == a.name && t.active.(name := s.active.name) == s.active)
      && (a.Selecting? ==> t.active == s.presets[a.i] && t.shown == a.i)
      && (a.Renaming? ==> t.active.name == (if a.name == "" then s.active.name else a.name)
                          && t.active.(name := s.active.name) == s.active)
      && (a.Editing? ==> t.active.name == s.active.name && t.active == a.p.(name := s.active.name))
  {
  }

  /** The entry that the menu shows stays the active one, exactly unless a report is about
      another preset. */
  lemma {:induction false} ActionsShowActive(s: State, a: Action, custom: string)
    requires Consistent(s) && Enabled(s, a) && s.shown == s.index
    ensures var t := Apply(s, a, custom);
      t.shown == t.index <==> a.Receiving? ==> Found(s.presets, a.r, custom) in {-1, s.index as int}
  {
    hide Found;
  }

  /** After a report the active preset says what the daemon reported, exactly when the
      reported tablet area has an extent or is the one the preset had. */
  lemma {:induction false} ReportIsTaken(s: State, r: Report, custom: string, width: int, height: int)
    requires Consistent(s)
    ensures var t, found := Receive(s, r, custom, width, height), Found(s.presets, r, custom);
      var was, g := if found >= 0 then s.presets[found] else s.active.(name := custom), r.layout;
      && (Agrees(t.active, r) <==>
            || (g.tl < g.tr && g.tt < g.tb)
            || (was.layout.tl, was.layout.tt, was.layout.tr, was.layout.tb) == (g.tl, g.tt, g.tr, g.tb))
      && t.active.name == was.name
      && t.active.screenWidth == width && t.active.screenHeight == height && !t.active.constrained
  {
    hide Found;
  }

  /** Deleting what was just added restores the list; the selection comes back exactly
      when the last preset had been selected. */
  lemma {:induction false} AddThenDelete(s: State, name: string)
    requires Consistent(s)
    ensures Delete(Add(s, name)).presets == s.presets
    ensures Delete(Add(s, name)).index == s.index <==> s.index == |s.presets| - 1
    ensures s.index == |s.presets| - 1 ==> Delete(Add(s, name)).active == s.active
  {
    assert Without(Add(s, name).presets, |s.presets|) == s.presets;
  }

  /** A report about a known preset always lands in the slot of the previously active one.
      That slot is the right one, and the other presets stay as they were, if and only if
      the report is about the active preset, or nothing at all would have changed. */
  lemma {:induction false} ReportChangesActive(s: State, r: Report, custom: string, width: int, height: int)
    requires Consistent(s) && Found(s.presets, r, custom) >= 0
    ensures var found := Found(s.presets, r, custom);
      var t, wanted := Receive(s, r, custom, width, height), Updated(s.presets[found], r, width, height);
      && t.presets == s.presets[s.index := wanted]
      && (t.presets == s.presets[found := wanted]
          <==> found == s.index || s.presets[found] == wanted == s.presets[s.index])
      && (s.shown == s.index ==> (t.shown == t.index <==> found == s.index))
  {
    var found := Found(s.presets, r, custom);
    var wanted := Updated(s.presets[found], r, width, height);
    var x, y := s.presets[s.index := wanted], s.presets[found := wanted];
    if x == y {
      assert x[found] == y[found] && x[s.index] == y[s.index];
    }
    if found != s.index && s.presets[found] == wanted == s.presets[s.index] {
      assert x == s.presets && y == s.presets;
    }
  }

  /** So a report that matches another preset than the active one overwrites the active
      one with a copy, of the same name, unless it was one already. */
  lemma {:induction false} ActiveIsLost(s: State, r: Report, custom: string, width: int, height: int)
    requires Consistent(s) && Found(s.presets, r, custom) >= 0
    requires s.presets[Found(s.presets, r, custom)].name != s.active.name
    ensures var found, t := Found(s.presets, r, custom), Receive(s, r, custom, width, height);
      && t.presets[found].name == t.presets[s.index].name
      && forall i :: 0 <= i < |t.presets| && t.presets[i] == s.active ==> i != s.index && s.presets[i] == s.active
  {
    ReportChangesActive(s, r, custom, width, height);
  }

  /** A report about an unknown layout adds a preset and leaves the others alone. */
  lemma {:induction false} UnknownReportAdds(s: State, r: Report, custom: string, width: int, height: int)
    requires Consistent(s) && Found(s.presets, r, custom) == -1
    ensures var t := Receive(s, r, custom, width, height);
      && t.presets == s.presets + [Updated(s.active.(name := custom), r, width, height)]
      && t.index == t.shown == |s.presets|
  {
    var added := Add(s, custom);
    var p := Updated(added.active, r, width, height);
    assert added.presets[|s.presets| := p] == s.presets + [p];
  }

  // ---- the menu over runs ----

  lemma {:induction false} NamesAt(ps: seq<Preset>, i: nat)
    requires i < |ps|
    ensures NamesOf(ps)[i] == ps[i].name
    decreases |ps|
  {
    if i < |ps| - 1 {
      NamesAt(ps[..|ps| - 1], i);
    }
  }

  lemma {:induction false} NamesUpdated(ps: seq<Preset>, i: nat, p: Preset)
    requires i < |ps|
    ensures NamesOf(ps[i := p]) == NamesOf(ps)[i := p.name]
  {
    var names, changed := NamesOf(ps[i := p]), NamesOf(ps)[i := p.name];
    forall k | 0 <= k < |ps| ensures names[k] == changed[k] {
      NamesAt(ps[i := p], k);
      NamesAt(ps, k);
    }
  }

  /** The title that a name would get at an entry of a menu. */
  ghost function TitleAt(titles: seq<string>, i: nat, name: string): (title: string)
    requires i < |titles|
  {
    Candidate(name, FreeFrom(name, titles[..i], 0))
  }

  lemma {:induction false} TitleOfEntry(names: seq<string>, i: nat)
    requires i < |names|
    ensures Titles(names)[i] == TitleAt(Titles(names), i, names[i])
  {
    TitlesOfPrefix(names, i);
    TitlesOfPrefix(names, i + 1);
    assert names[..i + 1][..i] == names[..i];
    assert Titles(names)[i] == Titles(names)[..i + 1][i];
    hide FreeFrom;
  }

  /** Changing one name changes the menu exactly when it changes that entry's title. */
  lemma {:induction false} OneNameChanged(names: seq<string>, i: nat, name: string)
    requires i < |names|
    ensures Titles(names[i := name]) == Titles(names) <==> Titles(names)[i] == TitleAt(Titles(names), i, name)
  {
    var changed := names[i := name];
    TitlesOfPrefix(names, i);
    TitlesOfPrefix(changed, i);
    assert changed[..i] == names[..i];
    TitleOfEntry(changed, i);
    if Titles(names)[i] == TitleAt(Titles(names), i, name) {
      SameAfter(names, changed, i, |names|);
      assert names[..|names|] == names && changed[..|names|] == changed;
    }
  }

  lemma {:induction false} SameAfter(names: seq<string>, changed: seq<string>, i: nat, n: nat)
    requires i < n <= |names| == |changed| && changed == names[i := changed[i]]
    requires Titles(names)[..i] == Titles(changed)[..i] && Titles(names)[i] == Titles(changed)[i]
    ensures Titles(names[..n]) == Titles(changed[..n])
    decreases n
  {
    hide Titles, FreeFrom, Candidate;
    if n == i + 1 {
      TitlesOfPrefix(names, n);
      TitlesOfPrefix(changed, n);
      assert Titles(names)[..n] == Titles(names)[..i] + [Titles(names)[i]];
      assert Titles(changed)[..n] == Titles(changed)[..i] + [Titles(changed)[i]];
    } else {
      SameAfter(names, changed, i, n - 1);
      TitlesNext(names, n - 1);
      TitlesNext(changed, n - 1);
      assert names[n - 1] == changed[n - 1];
    }
  }

  lemma {:induction false} TitlesNext(names: seq<string>, n: nat)
    requires n < |names|
    ensures var before := Titles(names[..n]);
      Titles(names[..n + 1]) == before + [Candidate(names[n], FreeFrom(names[n], before, 0))]
  {
    assert names[..n + 1][..n] == names[..n];
    hide FreeFrom, Candidate;
  }

  /** The name that a report puts into the slot of the active preset gets there the title
      that the menu shows already. */
  ghost predicate KeepsTitle(s: State, r: Report, custom: string) {
    var found := Found(s.presets, r, custom);
    && s.index < |s.titles|
    && (found >= 0 ==> s.titles[s.index] == TitleAt(s.titles, s.index, s.presets[found].name))
  }

  /** A report never rebuilds the menu, so the menu still fits the names exactly when the
      name it puts in place has the same title. */
  lemma {:induction false} ReportKeepsMenu(s: State, r: Report, custom: string, width: int, height: int)
    requires Consistent(s) && MenuFits(s)
    ensures MenuFits(Receive(s, r, custom, width, height)) <==> KeepsTitle(s, r, custom)
    ensures Found(s.presets, r, custom) == s.index ==> KeepsTitle(s, r, custom)
  {
    var found := Found(s.presets, r, custom);
    var names := NamesOf(s.presets);
    NamesAt(s.presets, s.index);
    TitleOfEntry(names, s.index);
    if found >= 0 {
      var p := Updated(s.presets[found], r, width, height);
      ReportChangesActive(s, r, custom, width, height);
      NamesUpdated(s.presets, s.index, p);
      OneNameChanged(names, s.index, p.name);
    } else {
      var added := Add(s, custom);
      NamesUpdated(added.presets, |s.presets|, Updated(added.active, r, width, height));
      NamesAt(added.presets, |s.presets|);
      assert NamesOf(added.presets)[|s.presets| := custom] == NamesOf(added.presets);
    }
    hide Titles, TitleAt, Matches, Found, Updated;
  }

  // ---- runs ----

  datatype Action =
    | Adding(name: string)
    | Selecting(i: nat)
    | Deleting
    | Renaming(name: string)
    | Editing(p: Preset)
    | Receiving(r: Report, width: int, height: int)

  /** What the pane lets through: the delete button needs a second preset. */
  predicate Enabled(s: State, a: Action) {
    match a
    case Selecting(i) => i < |s.presets|
    case Deleting => |s.presets| > 1
    case _ => true
  }

  ghost function Apply(s: State, a: Action, custom: string): (t: State)
    requires s.index < |s.presets|
    requires Enabled(s, a)
  {
    match a
    case Adding(name) => Add(s, name)
    case Selecting(i) => Select(s, i)
    case Deleting => Delete(s)
    case Renaming(name) => Rename(s, name)
    case Editing(p) => Change(s, p.(name := s.active.name))
    case Receiving(r, width, height) => Receive(s, r, custom, width, height)
  }

  lemma {:induction false} ApplyKeepsConsistent(s: State, a: Action, custom: string)
    requires Consistent(s) && Enabled(s, a)
    ensures Consistent(Apply(s, a, custom))
  {
  }

  /** An action after which the menu still fits: every one but a report that puts another
      title in place. */
  ghost predicate Harmless(s: State, a: Action, custom: string) {
    a.Receiving? ==> KeepsTitle(s, a.r, custom)
  }

  lemma {:induction false} ApplyKeepsMenu(s: State, a: Action, custom: string)
    requires Consistent(s) && Enabled(s, a) && MenuFits(s)
    ensures MenuFits(Apply(s, a, custom)) <==> Harmless(s, a, custom)
  {
    match a
    case Receiving(r, width, height) => ReportKeepsMenu(s, r, custom, width, height);
    case Editing(p) =>
      NamesUpdated(s.presets, s.index, p.(name := s.active.name));
      NamesAt(s.presets, s.index);
      assert NamesOf(s.presets)[s.index := s.active.name] == NamesOf(s.presets);
    case _ =>
  }

  ghost predicate AllEnabled(s: State, actions: seq<Action>, custom: string)
    decreases |actions|
  {
    actions != [] ==>
      && s.index < |s.presets| && Enabled(s, actions[0])
      && AllEnabled(Apply(s, actions[0], custom), actions[1..], custom)
  }

  /** After every action of a run the menu fits. */
  ghost predicate MenuAlwaysFits(s: State, actions: seq<Action>, custom: string)
    requires AllEnabled(s, actions, custom)
    decreases |actions|
  {
    MenuFits(s) && (actions != [] ==> MenuAlwaysFits(Apply(s, actions[0], custom), actions[1..], custom))
  }

  ghost predicate AllHarmless(s: State, actions: seq<Action>, custom: string)
    requires AllEnabled(s, actions, custom)
    decreases |actions|
  {
    actions != [] ==>
      Harmless(s, actions[0], custom) && AllHarmless(Apply(s, actions[0], custom), actions[1..], custom)
  }

  /** Over any run entry i of the menu is preset i at all times, if and only if no report
      puts another title in place of the active preset's. */
  lemma {:induction false} MenuOverRuns(s: State, actions: seq<Action>, custom: string)
    requires Consistent(s) && MenuFits(s) && AllEnabled(s, actions, custom)
    ensures MenuAlwaysFits(s, actions, custom) <==> AllHarmless(s, actions, custom)
    decreases |actions|
  {
    if actions != [] {
      var t := Apply(s, actions[0], custom);
      ApplyKeepsConsistent(s, actions[0], custom);
      ApplyKeepsMenu(s, actions[0], custom);
      if MenuFits(t) {
        MenuOverRuns(t, actions[1..], custom);
      } else {
        assert !MenuAlwaysFits(t, actions[1..], custom);
      }
    }
  }

  /** A run from a state: each action was enabled in the state it found. */
  ghost predicate Reachable(s: State, actions: seq<Action>, custom: string, t: State)
    decreases |actions|
  {
    if actions == [] then s == t
    else
      && s.index < |s.presets| && Enabled(s, actions[0])
      && Reachable(Apply(s, actions[0], custom), actions[1..], custom, t)
  }

  /** Over any run the active index stays in range and the active preset is the stored one. */
  lemma {:induction false} RunsKeepConsistent(s: State, actions: seq<Action>, custom: string, t: State)
    requires Consistent(s) && Reachable(s, actions, custom, t)
    ensures Consistent(t)
    decreases |actions|
  {
    if actions != [] {
      ApplyKeepsConsistent(s, actions[0], custom);
      RunsKeepConsistent(Apply(s, actions[0], custom), actions[1..], custom, t);
    }
  }

  // ---- the controller ----

  class PresetsController {
    const custom: string
    var presetsArray: seq<Preset>
    var activePreset: Preset
    var activePresetIndex: nat
    var popup: seq<string>
    var selected: int

    ghost function View(): (s: State)
      reads this
    {
      State(presetsArray, activePreset, activePresetIndex, popup, selected)
    }

    constructor (first: Preset, custom: string)
      ensures Consistent(View()) && View() == Filled([first], first, 0) && this.custom == custom
    {
      this.custom := custom;
      presetsArray, activePreset, activePresetIndex := [first], first, 0;
      popup, selected := [first.name], 0;
      OnePreset(first);
    }

    /** The naming loop ends, because every title it rejects is a different entry of the menu. */
    method AddTitle(base: string)
      modifies this`popup
      ensures popup == old(popup) + [Candidate(base, FreeFrom(base, old(popup), 0))]
    {
      var uid: nat := 0;
      var title := base;
      while title in popup
        invariant popup == old(popup)
        invariant title == Candidate(base, uid) && Taken(base, popup, uid)
        decreases |popup| - uid
      {
        NoMoreThanUsed(base, popup, uid + 1);
        uid := uid + 1;
        title := base + [' '] + Dec(uid);
      }
      FreeIsUnique(base, popup, uid, FreeFrom(base, popup, 0));
      popup := popup + [title];
    }

    method UpdatePresetsMenu()
      modifies this`popup, this`selected
      ensures View() == Filled(presetsArray, activePreset, activePresetIndex)
    {
      popup := [];
      for i := 0 to |presetsArray|
        invariant popup == Titles(NamesOf(presetsArray[..i]))
      {
        NamesNext(presetsArray, i);
        AddTitle(presetsArray[i].name);
      }
      assert presetsArray[..|presetsArray|] == presetsArray;
      selected := if presetsArray == [] then -1 else activePresetIndex;
    }

    method ActivatePresetIndex(i: int)
      modifies this`activePreset
      ensures activePreset == var k := if i < 0 then activePresetIndex else i;
                if i < |presetsArray| && k < |presetsArray| then presetsArray[k] else old(activePreset)
    {
      var k := if i < 0 then activePresetIndex else i;
      if i < |presetsArray| && k < |presetsArray| {
        activePreset := presetsArray[k];
      }
    }

    method AddPresetNamed(name: string)
      modifies this
      ensures View() == Add(old(View()), name)
    {
      var newPreset := activePreset.(name := name);
      presetsArray := presetsArray + [newPreset];
      activePresetIndex := |presetsArray| - 1;
      activePreset := presetsArray[activePresetIndex];
      UpdatePresetsMenu();
    }

    /** The user has chosen an entry of the menu. */
    method SelectedPreset(item: nat)
      requires item < |presetsArray|
      modifies this
      ensures View() == Select(old(View()), item)
    {
      selected := item;
      activePresetIndex := item;
      ActivatePresetIndex(activePresetIndex);
    }

    method DoDeletePreset()
      requires activePresetIndex < |presetsArray|
      modifies this
      ensures View() == Delete(old(View()))
    {
      presetsArray := presetsArray[..activePresetIndex] + presetsArray[activePresetIndex + 1..];
      if activePresetIndex > 0 && activePresetIndex >= |presetsArray| {
        activePresetIndex := activePresetIndex - 1;
      }
      UpdatePresetsMenu();
      ActivatePresetIndex(activePresetIndex);
    }

    method SynchronizePresetInArray()
      requires activePresetIndex < |presetsArray|
      modifies this`presetsArray
      ensures presetsArray == old(presetsArray)[activePresetIndex := activePreset]
    {
      presetsArray := presetsArray[activePresetIndex := activePreset];
    }

    method DoRenamePreset(name: string)
      requires activePresetIndex < |presetsArray|
      modifies this
      ensures View() == Rename(old(View()), name)
    {
      if name != "" {
        activePreset := activePreset.(name := name);
        SynchronizePresetInArray();
        UpdatePresetsMenu();
      }
    }

    method FindMatching(r: Report) returns (found: int)
      ensures found == FirstMatch(presetsArray, r)
    {
      found := -1;
      var i := 0;
      while i < |presetsArray| && found == -1
        invariant 0 <= i <= |presetsArray|
        invariant -1 <= found < i
        invariant found >= 0 ==> Matches(presetsArray[found], r)
        invariant forall k :: 0 <= k < (if found < 0 then i else found) ==> !Matches(presetsArray[k], r)
      {
        if Matches(presetsArray[i], r) {
          found := i;
        }
        i := i + 1;
      }
    }

    method FindCustom() returns (found: int)
      ensures found == FirstNamed(presetsArray, custom)
    {
      found := -1;
      var i := 0;
      while i < |presetsArray| && found == -1
        invariant 0 <= i <= |presetsArray|
        invariant -1 <= found < i
        invariant found >= 0 ==> SameLetters(presetsArray[found].name, custom)
        invariant forall k :: 0 <= k < (if found < 0 then i else found) ==> !SameLetters(presetsArray[k].name, custom)
      {
        if SameLetters(presetsArray[i].name, custom) {
          found := i;
        }
        i := i + 1;
      }
    }

    method ActivatePresetMatching(r: Report)
      modifies this
      ensures View() == Activate(old(View()), r, custom)
    {
      var found := FindMatching(r);
      if found == -1 {
        found := FindCustom();
      }
      if found == -1 {
        AddPresetNamed(custom);
        found := |presetsArray| - 1;
      }
      if found != activePresetIndex {
        selected := found;
        ActivatePresetIndex(found);
      }
    }

    /** A geometry report has arrived; `width` and `height` are the screen chooser's. */
    method GeometryReceived(r: Report, width: int, height: int)
      requires activePresetIndex < |presetsArray|
      modifies this
      ensures View() == Receive(old(View()), r, custom, width, height)
    {
      ActivatePresetMatching(r);
      activePreset := activePreset.(constrained := false);
      var g := r.layout;
      if g.tr > g.tl && g.tb > g.tt {
        activePreset := activePreset.(layout := activePreset.layout.(tl := g.tl, tt := g.tt, tr := g.tr, tb := g.tb));
      }
      activePreset := activePreset.(screenWidth := width, screenHeight := height);
      activePreset := activePreset.(layout := activePreset.layout.(sl := g.sl, st := g.st, sr := g.sr, sb := g.sb));
      activePreset := activePreset.(layout := activePreset.layout.(tip := g.tip, side1 := g.side1, side2 := g.side2,
                                                                 eraser := g.eraser));
      activePreset := activePreset.(layout := activePreset.layout.(mouse := g.mouse), scaling := r.scaling);
      SynchronizePresetInArray();
    }
  }

  function NamesOf(ps: seq<Preset>): (names: seq<string>)
    ensures |names| == |ps|
  {
    if ps == [] then [] else NamesOf(ps[..|ps| - 1]) + [ps[|ps| - 1].name]
  }

  lemma {:induction false} OnePreset(p: Preset)
    ensures Titles(NamesOf([p])) == [p.name]
  {
    assert [p][..0] == [];
    var names := NamesOf([p]);
    assert names == [p.name] && names[..0] == [];
    FreeIsUnique(p.name, [], FreeFrom(p.name, [], 0), 0);
  }

  lemma {:induction false} NamesNext(ps: seq<Preset>, n: nat)
    requires n < |ps|
    ensures Titles(NamesOf(ps[..n + 1]))
            == Titles(NamesOf(ps[..n])) + [Candidate(ps[n].name, FreeFrom(ps[n].name, Titles(NamesOf(ps[..n])), 0))]
  {
    assert ps[..n + 1][..n] == ps[..n];
    var names := NamesOf(ps[..n + 1]);
    assert names[..n] == NamesOf(ps[..n]) && names[n] == ps[n].name;
  }
}
