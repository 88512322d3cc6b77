/**
  Section numbers of the documentation (`Headings` in doc/number-sections.py).  A heading of
  depth `d` has `d + 1` marks; depth 0 is not numbered.
 */
module Headings {
  import opened Wrappers
  import opened Records

  const MAX_DEPTH := 5

  datatype State = State(counters: map<int, int>, last: int)

  function Initial(): State {
    State(map[0 := 1, 1 := 1, 2 := 1, 3 := 1, 4 := 1], 0)
  }

  /** The counters that the number of a heading is read from are there. */
  predicate Valid(s: State) {
    s.last >= 0 && forall i :: 0 <= i < MAX_DEPTH + s.last && (i < MAX_DEPTH || i <= s.last) ==> i in s.counters
  }

  /** Counters from `d` to the end of the table set to one. */
  function Reset(counters: map<int, int>, d: int): (c: map<int, int>)
    requires d >= 0
    ensures forall i :: i in c <==> i in counters || d <= i < MAX_DEPTH
    ensures forall i :: i in c ==> c[i] == if d <= i < MAX_DEPTH then 1 else counters[i]
    decreases MAX_DEPTH - d
  {
    if d >= MAX_DEPTH then counters else Reset(counters, d + 1)[d := 1]
  }

  /** The effect of a heading; `None` is the exception for a skipped level. */
  function Step(s: State, depth: nat): (o: Option<State>)
    requires Valid(s)
    ensures o.Some? ==> Valid(o.value) && o.value.last == depth
  {
    if depth == 0 then Some(s.(last := 0))
    else if depth == s.last then Some(State(s.counters[depth - 1 := s.counters[depth - 1] + 1], depth))
    else if depth < s.last then
      var c := Reset(s.counters, depth);
      Some(State(c[depth - 1 := c[depth - 1] + 1], depth))
    else if depth == s.last + 1 then Some(State(s.counters[depth := 1], depth))
    else None
  }

  /** The number written for a heading of this depth. */
  function Number(s: State, depth: nat): (n: seq<int>)
    requires Valid(s) && depth <= s.last
    ensures |n| == depth && forall i :: 0 <= i < depth ==> n[i] == s.counters[i]
  {
    if depth == 0 then [] else Number(s, depth - 1) + [s.counters[depth - 1]]
  }

  function NumberText(n: seq<int>): string {
    if n == [] then "" else NumberText(n[..|n| - 1]) + (IntText(n[|n| - 1]) + ".")
  }

  function Marks(row: string): nat {
    if row != [] && row[0] == '#' then 1 + Marks(row[1..]) else 0
  }

  lemma {:induction false} MarksAt(row: string, i: nat)
    requires i <= |row| && forall j :: 0 <= j < i ==> row[j] == '#'
    ensures i < |row| && row[i] != '#' ==> Marks(row) == i
    ensures i == |row| ==> Marks(row) == |row|
    decreases i
  {
    if i > 0 {
      MarksAt(row[1..], i - 1);
    }
  }

  /** Python's `str.strip` and `str.lower`. */
  datatype Text = Text(strip: string -> string, lower: string -> string)

  /** Points dropped, blanks turned into dashes. */
  function Dashed(s: string): string {
    if s == [] then ""
    else (if s[0] == '.' then "" else if s[0] == ' ' then "-" else [s[0]]) + Dashed(s[1..])
  }

  /** `makeReference`. */
  function Reference(text: Text, ref: string): string {
    "(#" + Dashed(text.lower(text.strip(ref))) + ")"
  }

  class Numbering {
    var headingCounters: map<int, int>
    var lastDepth: int
    var toc: seq<string>
    var referenceRewrite: map<string, string>

    function Now(): State
      reads this
    {
      State(headingCounters, lastDepth)
    }

    constructor ()
      ensures Now() == Initial() && Valid(Now()) && toc == [] && referenceRewrite == map[]
    {
      headingCounters := map[];
      lastDepth := 0;
      toc := [];
      referenceRewrite := map[];
      new;
      for i := 0 to MAX_DEPTH
        invariant lastDepth == 0 && toc == [] && referenceRewrite == map[]
        invariant forall k :: k in headingCounters <==> 0 <= k < i
        invariant forall k :: k in headingCounters ==> headingCounters[k] == 1
      {
        headingCounters := headingCounters[i := 1];
      }
      ghost var c := Initial().counters;
      assert c[0] == 1 && c[1] == 1 && c[2] == 1 && c[3] == 1 && c[4] == 1;
      assert forall k :: k in headingCounters <==> k in c;
      assert headingCounters == c;
    }

    /** The case analysis on depths; `false` stands for the exception for a skipped level. */
    method Count(depth: nat) returns (ok: bool)
      requires Valid(Now())
      modifies this`headingCounters, this`lastDepth
      ensures ok <==> Step(old(Now()), depth).Some?
      ensures ok ==> Now() == Step(old(Now()), depth).value && Valid(Now())
    {
      if depth == 0 {
      } else if depth == lastDepth {
        headingCounters := headingCounters[depth - 1 := headingCounters[depth - 1] + 1];
      } else if depth < lastDepth {
        ghost var before := headingCounters;
        var index := depth;
        while index < MAX_DEPTH
          invariant depth <= index && (index <= MAX_DEPTH || index == depth) && lastDepth == old(lastDepth)
          invariant forall i :: i in headingCounters <==> i in before || depth <= i < index
          invariant forall i :: i in headingCounters ==>
            headingCounters[i] == if depth <= i < index then 1 else before[i]
        {
          headingCounters := headingCounters[index := 1];
          index := index + 1;
        }
        assert headingCounters == Reset(before, depth);
        headingCounters := headingCounters[depth - 1 := headingCounters[depth - 1] + 1];
      } else if depth == lastDepth + 1 {
        headingCounters := headingCounters[depth := 1];
      } else {
        return false;
      }
      lastDepth := depth;
      ok := true;
    }

    method SectionNumber(depth: nat) returns (sectionNumber: string)
      requires Valid(Now()) && depth <= lastDepth
      ensures sectionNumber == NumberText(Number(Now(), depth))
    {
      sectionNumber := "";
      for index := 0 to depth
        invariant sectionNumber == NumberText(Number(Now(), index))
      {
        var n := Number(Now(), index + 1);
        assert n[..index] == Number(Now(), index);
        sectionNumber := sectionNumber + (IntText(headingCounters[index]) + ".");
      }
    }

    /** `None` stands for an exception: a row of nothing but marks, or a skipped level. */
    method GetHeading(text: Text, row: string) returns (result: Option<string>)
      requires row != "" && row[0] == '#' && Valid(Now())
      modifies this
      ensures var depth := Marks(row) - 1;
        && (result.Some? <==> Marks(row) < |row| && Step(old(Now()), depth).Some?)
        && (result.Some? ==>
              && Now() == Step(old(Now()), depth).value
              && Valid(Now())
              && (depth == 0 ==> result.value == row && toc == old(toc) && referenceRewrite == old(referenceRewrite))
              && (depth > 0 ==>
                    var number, heading := NumberText(Number(Now(), depth)), row[depth + 1..];
                    && result.value == row[..depth + 2] + number + heading
                    && toc == old(toc) +
                       ["|" + number + "|[" + text.strip(heading) + "]" + Reference(text, number + heading) + "|\n"]
                    && referenceRewrite ==
                      old(referenceRewrite)[Reference(text, heading) := Reference(text, number + heading)]))
    {
      var marks := 0;
      while marks < |row| && row[marks] == '#'
        invariant 0 <= marks <= |row| && forall j :: 0 <= j < marks ==> row[j] == '#'
      {
        marks := marks + 1;
      }
      MarksAt(row, marks);
      if marks == |row| {
        return None;
      }
      var depth := marks - 1;
      var ok := Count(depth);
      if !ok {
        return None;
      }
      if depth == 0 {
        return Some(row);
      }
      var sectionNumber := SectionNumber(depth);
      var heading := row[depth + 1..];
      var origRef := Reference(text, heading);
      var ref := Reference(text, sectionNumber + heading);
      toc := toc + ["|" + sectionNumber + "|[" + text.strip(heading) + "]" + ref + "|\n"];
      referenceRewrite := referenceRewrite[origRef := ref];
      return Some(row[..depth + 2] + sectionNumber + heading);
    }
  }

  // ---- whole documents -------------------------------------------------------------------

  /** The state after headings of these depths. */
  function After(depths: seq<nat>): (o: Option<State>)
    ensures o.Some? ==> Valid(o.value) && o.value.last == if depths == [] then 0 else depths[|depths| - 1]
  {
    if depths == [] then Some(Initial())
    else
      match After(depths[..|depths| - 1])
      case None => None
      case Some(s) => Step(s, depths[|depths| - 1])
  }

  /** The numbers of the headings that are numbered, in order. */
  function Numbers(depths: seq<nat>): seq<seq<int>>
    requires After(depths).Some?
  {
    if depths == [] then []
    else
      var d := depths[|depths| - 1];
      Numbers(depths[..|depths| - 1]) + (if d == 0 then [] else [Number(After(depths).value, d)])
  }

  /** The position of the next heading in an outline: one further at its depth, or a first
      subsection. */
  function NextPath(path: seq<int>, d: nat): seq<int>
    requires 0 < d <= |path| + 1
  {
    if d <= |path| then path[..d - 1] + [path[d - 1] + 1] else path + [1]
  }

  /** The outline path of the last of a list of numbered headings. */
  function Path(depths: seq<nat>): seq<int>
    requires After(depths).Some?
  {
    if depths == [] then []
    else
      var p, d := Path(depths[..|depths| - 1]), depths[|depths| - 1];
      if 0 < d <= |p| + 1 then NextPath(p, d) else p
  }

  /** The counters hold the path, and all counters beyond it are one. */
  predicate Tracks(s: State, path: seq<int>) {
    && Valid(s) && |path| == s.last <= MAX_DEPTH
    && (forall i :: 0 <= i < |path| ==> s.counters[i] == path[i])
    && (forall i :: |path| <= i < MAX_DEPTH ==> s.counters[i] == 1)
  }

  /** The heading step is the outline step. */
  lemma StepTracks(s: State, path: seq<int>, d: nat)
    requires Tracks(s, path) && 0 < d <= MAX_DEPTH && Step(s, d).Some?
    ensures d <= |path| + 1
    ensures Tracks(Step(s, d).value, NextPath(path, d))
    ensures Number(Step(s, d).value, d) == NextPath(path, d)
  {
  }

  /** All unnumbered headings come before all numbered ones. */
  predicate TitlesFirst(depths: seq<nat>) {
    forall i, j :: 0 <= i < j < |depths| && depths[i] > 0 ==> depths[j] > 0
  }

  predicate Shallow(depths: seq<nat>) {
    forall i :: 0 <= i < |depths| ==> depths[i] <= MAX_DEPTH
  }

  lemma Init(depths: seq<nat>)
    requires depths != []
    ensures Shallow(depths) ==> Shallow(depths[..|depths| - 1])
    ensures TitlesFirst(depths) ==> TitlesFirst(depths[..|depths| - 1])
  {
    assert forall i :: 0 <= i < |depths| - 1 ==> depths[..|depths| - 1][i] == depths[i];
  }

  lemma {:induction false} PathIsTracked(depths: seq<nat>)
    requires Shallow(depths) && TitlesFirst(depths) && After(depths).Some?
    ensures Tracks(After(depths).value, Path(depths))
    ensures (forall i :: 0 <= i < |depths| ==> depths[i] == 0) ==> Path(depths) == []
    ensures depths != [] && depths[|depths| - 1] > 0 ==>
      Number(After(depths).value, depths[|depths| - 1]) == Path(depths)
  {
    if depths != [] {
      var init, d := depths[..|depths| - 1], depths[|depths| - 1];
      Init(depths);
      PathIsTracked(init);
      if d > 0 {
        StepTracks(After(init).value, Path(init), d);
      } else {
        assert forall i :: 0 <= i < |init| ==> init[i] == depths[i];
        assert forall i :: 0 <= i < |depths| ==> depths[i] == 0;
      }
    }
  }

  /** Where titles come first and no level is skipped, every heading is numbered by its outline path. */
  lemma {:induction false} NumbersArePaths(depths: seq<nat>, k: nat)
    requires Shallow(depths) && TitlesFirst(depths) && After(depths).Some?
    requires k < |depths| && depths[k] > 0
    ensures After(depths[..k + 1]).Some?
    ensures Path(depths[..k + 1]) in Numbers(depths)
    ensures Number(After(depths[..k + 1]).value, depths[k]) == Path(depths[..k + 1])
    decreases |depths|
  {
    var init := depths[..|depths| - 1];
    Init(depths);
    if k == |depths| - 1 {
      assert depths[..k + 1] == depths;
      PathIsTracked(depths);
    } else {
      assert init[..k + 1] == depths[..k + 1];
      NumbersArePaths(init, k);
    }
  }

  // ---- order -----------------------------------------------------------------------------

  /** Lexicographic order; a section comes before its subsections. */
  predicate Less(a: seq<int>, b: seq<int>) {
    b != [] && (a == [] || a[0] < b[0] || (a[0] == b[0] && Less(a[1..], b[1..])))
  }

  lemma {:induction false} LessTransitive(a: seq<int>, b: seq<int>, c: seq<int>)
    requires Less(a, b) && Less(b, c)
    ensures Less(a, c)
  {
    if a != [] && a[0] == b[0] && b[0] == c[0] {
      LessTransitive(a[1..], b[1..], c[1..]);
    }
  }

  lemma {:induction false} LessIrreflexive(a: seq<int>)
    ensures !Less(a, a)
  {
    if a != [] {
      LessIrreflexive(a[1..]);
    }
  }

  /** Texts that agree before `i`, where the first is less or ends. */
  lemma {:induction false} LessAt(a: seq<int>, b: seq<int>, i: nat)
    requires i <= |a| && i < |b| && forall j :: 0 <= j < i ==> a[j] == b[j]
    requires i < |a| ==> a[i] < b[i]
    ensures Less(a, b)
  {
    if i > 0 {
      LessAt(a[1..], b[1..], i - 1);
    }
  }

  /** A numbered heading after another one has a greater number, at every depth. */
  lemma NumberLess(s: State, d: nat)
    requires Valid(s) && s.last > 0 && d > 0 && Step(s, d).Some?
    ensures Less(Number(s, s.last), Number(Step(s, d).value, d))
  {
    LessAt(Number(s, s.last), Number(Step(s, d).value, d), d - 1);
  }

  ghost predicate Increasing(ns: seq<seq<int>>) {
    forall i, j :: 0 <= i < j < |ns| ==> Less(ns[i], ns[j])
  }

  lemma IncreasingSnoc(ns: seq<seq<int>>, n: seq<int>)
    requires Increasing(ns)
    ensures Increasing(ns + [n]) <==> ns == [] || Less(ns[|ns| - 1], n)
  {
    var m := ns + [n];
    if ns != [] {
      assert m[|ns|] == n && m[|ns| - 1] == ns[|ns| - 1];
      if Less(ns[|ns| - 1], n) {
        forall i, j | 0 <= i < j < |m|
          ensures Less(m[i], m[j])
        {
          if j == |ns| && i < |ns| - 1 {
            LessTransitive(ns[i], ns[|ns| - 1], n);
          }
        }
      }
    }
  }

  /** No two numbered headings are separated by an unnumbered one. */
  predicate Unbroken(depths: seq<nat>) {
    forall i, j, k :: 0 <= i < j < k < |depths| && depths[i] > 0 && depths[k] > 0 ==> depths[j] > 0
  }

  /** The last number given so far, if titles came first, is that of the last heading; and always
      its first component is the first counter. */
  lemma {:induction false} LastNumber(depths: seq<nat>)
    requires After(depths).Some?
    ensures var ns, s := Numbers(depths), After(depths).value;
      && (ns == [] <==> forall i :: 0 <= i < |depths| ==> depths[i] == 0)
      && (ns != [] ==> ns[|ns| - 1] != [] && ns[|ns| - 1][0] == s.counters[0])
      && (ns != [] && TitlesFirst(depths) ==> s.last > 0 && ns[|ns| - 1] == Number(s, s.last))
  {
    if depths != [] {
      var init, d := depths[..|depths| - 1], depths[|depths| - 1];
      Init(depths);
      LastNumber(init);
      assert forall i :: 0 <= i < |init| ==> init[i] == depths[i];
      if d == 0 && TitlesFirst(depths) {
        assert forall i :: 0 <= i < |depths| ==> depths[i] == 0;
      }
    }
  }

  lemma UnbrokenSnoc(depths: seq<nat>)
    requires depths != []
    ensures var init := depths[..|depths| - 1];
      && (Unbroken(depths) ==> Unbroken(init))
      && (depths[|depths| - 1] == 0 && Unbroken(init) ==> Unbroken(depths))
  {
    var init := depths[..|depths| - 1];
    assert forall i :: 0 <= i < |init| ==> init[i] == depths[i];
  }

  /** In a document without skipped levels, the numbers strictly increase, and so are unique, if
      and only if no unnumbered heading stands between two numbered ones.  (After such a heading
      the code goes back to the last top-level number.) */
  lemma {:induction false} HeadingTheorem(depths: seq<nat>)
    requires After(depths).Some?
    ensures Increasing(Numbers(depths)) <==> Unbroken(depths)
  {
    if depths != [] {
      var init, d := depths[..|depths| - 1], depths[|depths| - 1];
      var ns := Numbers(init);
      Init(depths);
      HeadingTheorem(init);
      UnbrokenSnoc(depths);
      if d > 0 {
        var n := Number(After(depths).value, d);
        if Increasing(ns) {
          IncreasingSnoc(ns, n);
          LastStep(depths);
        } else {
          NotIncreasing(ns, n);
        }
      } else {
        assert Numbers(depths) == ns;
      }
    }
  }

  lemma NotIncreasing(ns: seq<seq<int>>, n: seq<int>)
    requires !Increasing(ns)
    ensures !Increasing(ns + [n])
  {
    assert forall i :: 0 <= i < |ns| ==> (ns + [n])[i] == ns[i];
  }

  /** The last heading, when all is well before it and titles came first. */
  lemma GoodStep(depths: seq<nat>)
    requires After(depths).Some? && depths != [] && depths[|depths| - 1] > 0
    requires TitlesFirst(depths[..|depths| - 1])
    ensures var ns := Numbers(depths[..|depths| - 1]);
      ns == [] || Less(ns[|ns| - 1], Number(After(depths).value, depths[|depths| - 1]))
    ensures Unbroken(depths)
  {
    var init, d := depths[..|depths| - 1], depths[|depths| - 1];
    Init(depths);
    LastNumber(init);
    if Numbers(init) != [] {
      NumberLess(After(init).value, d);
    }
    assert forall i :: 0 <= i < |init| ==> init[i] == depths[i];
  }

  /** The last heading, when a title has come after a numbered heading. */
  lemma BadStep(depths: seq<nat>)
    requires After(depths).Some? && depths != [] && depths[|depths| - 1] > 0
    requires Unbroken(depths[..|depths| - 1]) && !TitlesFirst(depths[..|depths| - 1])
    ensures var ns := Numbers(depths[..|depths| - 1]);
      ns != [] && !Less(ns[|ns| - 1], Number(After(depths).value, depths[|depths| - 1]))
    ensures !Unbroken(depths)
  {
    var init, d := depths[..|depths| - 1], depths[|depths| - 1];
    Init(depths);
    LastNumber(init);
    EndsInTitle(init);
    Breaks(depths);
    var s := After(init).value;
    assert Number(After(depths).value, d) == [s.counters[0]];
    assert [s.counters[0]][1..] == [];
  }

  lemma EndsInTitle(depths: seq<nat>)
    requires Unbroken(depths) && !TitlesFirst(depths)
    ensures depths[|depths| - 1] == 0
    ensures exists i :: 0 <= i < |depths| && depths[i] > 0
  {
  }

  lemma Breaks(depths: seq<nat>)
    requires depths != [] && depths[|depths| - 1] > 0 && !TitlesFirst(depths[..|depths| - 1])
    ensures !Unbroken(depths)
  {
    var init := depths[..|depths| - 1];
    var i, j :| 0 <= i < j < |init| && init[i] > 0 && init[j] == 0;
    assert depths[i] > 0 && depths[j] == 0;
  }

  lemma LastStep(depths: seq<nat>)
    requires After(depths).Some? && depths != [] && depths[|depths| - 1] > 0
    requires Unbroken(depths[..|depths| - 1])
    ensures var ns := Numbers(depths[..|depths| - 1]);
      Unbroken(depths) <==> ns == [] || Less(ns[|ns| - 1], Number(After(depths).value, depths[|depths| - 1]))
  {
    if TitlesFirst(depths[..|depths| - 1]) {
      GoodStep(depths);
    } else {
      BadStep(depths);
    }
  }

  /** Strictly increasing numbers are pairwise distinct. */
  lemma IncreasingDistinct(ns: seq<seq<int>>)
    requires Increasing(ns)
    ensures forall i, j :: 0 <= i < j < |ns| ==> ns[i] != ns[j]
  {
    forall i, j | 0 <= i < j < |ns|
      ensures ns[i] != ns[j]
    {
      LessIrreflexive(ns[i]);
    }
  }

  // ---- the text of numbers and anchors ---------------------------------------------------

  lemma Three(a: string, b: string, c: string)
    ensures (a + b) + c == a + (b + c)
  {
  }

  /** The first component of a number is written in decimal and followed by a point, and so on. */
  lemma {:induction false} NumberTextStep(n: seq<int>)
    ensures NumberText([]) == ""
    ensures n != [] ==> NumberText(n) == (IntText(n[0]) + ".") + NumberText(n[1..])
  {
    if |n| == 1 {
      assert n[..0] == [] && n[1..] == [];
    } else if |n| > 1 {
      var k := |n| - 1;
      NumberTextStep(n[..k]);
      assert n[1..][..k - 1] == n[..k][1..];
      Three(IntText(n[0]) + ".", NumberText(n[..k][1..]), IntText(n[k]) + ".");
    }
  }

  predicate Positive(n: seq<int>) {
    forall i :: 0 <= i < |n| ==> n[i] > 0
  }

  predicate NoPoint(a: string) {
    forall i :: 0 <= i < |a| ==> a[i] != '.'
  }

  /** What stands before the first point, and after it. */
  lemma {:induction false} UpToPoint(a: string, b: string, s: string, t: string)
    requires a + "." + s == b + "." + t && NoPoint(a) && NoPoint(b)
    ensures a == b && s == t
  {
    var x, y := a + "." + s, b + "." + t;
    if a == [] || b == [] {
      assert x[0] == y[0] && (a == [] ==> x[0] == '.') && (b == [] ==> y[0] == '.');
      assert s == x[1..] && t == y[1..];
    } else {
      assert x[1..] == a[1..] + "." + s && y[1..] == b[1..] + "." + t;
      assert a[0] == x[0] == b[0];
      UpToPoint(a[1..], b[1..], s, t);
      assert a == [a[0]] + a[1..] && b == [b[0]] + b[1..];
    }
  }

  lemma SameComponent(m: nat, n: nat, s: string, t: string)
    requires NatText(m, 10) + "." + s == NatText(n, 10) + "." + t
    ensures m == n && s == t
  {
    UpToPoint(NatText(m, 10), NatText(n, 10), s, t);
    NatTextValue(m, 10);
    NatTextValue(n, 10);
  }

  lemma SameFirst(m: seq<int>, n: seq<int>)
    requires m != [] && n != [] && m[0] > 0 && n[0] > 0 && NumberText(m) == NumberText(n)
    ensures m[0] == n[0] && NumberText(m[1..]) == NumberText(n[1..])
  {
    NumberTextStep(m);
    NumberTextStep(n);
    SameComponent(m[0], n[0], NumberText(m[1..]), NumberText(n[1..]));
  }

  lemma NotEmptyText(n: seq<int>)
    requires n != []
    ensures NumberText(n) != ""
  {
  }

  /** Sections with the same text have the same number. */
  lemma {:induction false} NumberTextExact(m: seq<int>, n: seq<int>)
    requires Positive(m) && Positive(n) && NumberText(m) == NumberText(n)
    ensures m == n
    decreases |m|
  {
    if m == [] {
      if n != [] {
        NotEmptyText(n);
      }
    } else if n == [] {
      NotEmptyText(m);
    } else {
      SameFirst(m, n);
      NumberTextExact(m[1..], n[1..]);
      assert m == [m[0]] + m[1..] && n == [n[0]] + n[1..];
    }
  }

  /** An anchor is a number sign and a text in brackets, and in the text there are no points and no
      blanks; it keeps everything else. */
  lemma {:induction false} DashedPlain(s: string)
    ensures forall i :: 0 <= i < |Dashed(s)| ==> Dashed(s)[i] != '.' && Dashed(s)[i] != ' '
    ensures (forall i :: 0 <= i < |s| ==> s[i] != '.' && s[i] != ' ') ==> Dashed(s) == s
  {
    if s != [] {
      DashedPlain(s[1..]);
    }
  }

  lemma {:induction false} DashedCat(a: string, b: string)
    ensures Dashed(a + b) == Dashed(a) + Dashed(b)
    ensures Dashed(".") == "" && Dashed(" ") == "-"
  {
    if a == [] {
      assert a + b == b;
    } else {
      assert (a + b)[1..] == a[1..] + b;
      DashedCat(a[1..], b);
    }
  }

  lemma AnchorForm(text: Text, ref: string)
    ensures var r := Reference(text, ref);
      && |r| >= 3 && r[..2] == "(#" && r[|r| - 1] == ')'
      && forall i :: 2 <= i < |r| - 1 ==> r[i] != '.' && r[i] != ' '
  {
    DashedPlain(text.lower(text.strip(ref)));
  }

  lemma {:induction false} CountersPositive(depths: seq<nat>)
    requires After(depths).Some?
    ensures forall i :: i in After(depths).value.counters ==> After(depths).value.counters[i] > 0
    ensures forall n :: n in Numbers(depths) ==> Positive(n)
  {
    if depths != [] {
      CountersPositive(depths[..|depths| - 1]);
    }
  }

  /** In a document without skipped levels and without unnumbered headings among the numbered ones, no
      two headings are given the same number text. */
  lemma TextsDistinct(depths: seq<nat>, i: nat, j: nat)
    requires After(depths).Some? && Unbroken(depths) && i < j < |Numbers(depths)|
    ensures NumberText(Numbers(depths)[i]) != NumberText(Numbers(depths)[j])
  {
    var ns := Numbers(depths);
    HeadingTheorem(depths);
    IncreasingDistinct(ns);
    CountersPositive(depths);
    if NumberText(ns[i]) == NumberText(ns[j]) {
      NumberTextExact(ns[i], ns[j]);
    }
  }
}
