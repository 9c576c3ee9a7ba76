/** What a report of scripts/ci-go-test-shards.py says of each test and each package, told from the events about it. */
module TestReport {
  import opened Ordering
  import opened Outcomes
  import opened TestEvents

  // Which events.

  function EventsOf(lines: seq<Line>): (r: seq<Event>)
    requires forall i :: 0 <= i < |lines| ==> lines[i].Object?
    ensures |r| == |lines| && forall i :: 0 <= i < |r| ==> r[i] == lines[i].event
  {
    seq(|lines|, i requires 0 <= i < |lines| => lines[i].event)
  }

  predicate About(line: Line, s: Subject) {
    match s
    case OfTest(k) => AboutTest(line, k)
    case OfPackage(p) => AboutPackage(line, p)
    case _ => false
  }

  lemma {:induction false} EventsNext(front: seq<Line>, last: Line, s: Subject)
    requires s.OfTest? || s.OfPackage?
    ensures About(last, s) ==> last.Object?
    ensures EventsAbout(front + [last], s) == if About(last, s) then EventsAbout(front, s) + [last.event] else EventsAbout(front, s)
  {
    assert (front + [last])[..|front|] == front;
    ClassifyExact(last);
  }

  /** The events about a test or a package are those of exactly the lines about it, in order. */
  lemma {:induction false} EventsAboutExact(lines: seq<Line>, s: Subject) returns (picked: seq<Line>)
    requires s.OfTest? || s.OfPackage?
    ensures Picks(picked, lines, line => About(line, s)) && (forall i :: 0 <= i < |picked| ==> picked[i].Object?)
    ensures EventsAbout(lines, s) == EventsOf(picked)
  {
    var keep := line => About(line, s);
    if lines == [] {
      picked := [];
      PicksNothing(keep);
    } else {
      var front, last := lines[..|lines| - 1], lines[|lines| - 1];
      assert lines == front + [last];
      var before := EventsAboutExact(front, s);
      PicksNext(before, front, keep, last);
      EventsNext(front, last, s);
      assert keep(last) <==> About(last, s);
      picked := before;
      if About(last, s) {
        EventsOfNext(before, last);
        picked := before + [last];
      }
    }
  }

  lemma {:induction false} EventsOfNext(lines: seq<Line>, last: Line)
    requires last.Object? && forall i :: 0 <= i < |lines| ==> lines[i].Object?
    ensures forall i :: 0 <= i < |lines + [last]| ==> (lines + [last])[i].Object?
    ensures EventsOf(lines + [last]) == EventsOf(lines) + [last.event]
  {
  }

  // The reason a skipped test gives.

  /** The characters Python's `str.strip` removes. */
  const PYTHON_SPACE: set<char> := {
    '\t', '\n', '\U{b}', '\U{c}', '\r', '\U{1c}', '\U{1d}', '\U{1e}', '\U{1f}', ' ', '\U{85}', '\U{a0}', '\U{1680}',
    '\U{2000}', '\U{2001}', '\U{2002}', '\U{2003}', '\U{2004}', '\U{2005}', '\U{2006}', '\U{2007}', '\U{2008}', '\U{2009}', '\U{200a}',
    '\U{2028}', '\U{2029}', '\U{202f}', '\U{205f}', '\U{3000}'}

  lemma {:induction false} SpacesListed(c: char)
    ensures IsSpace(c) <==> c in PYTHON_SPACE
  {
    SmallRanges(c as int);
  }

  lemma {:induction false} SmallRanges(n: int)
    ensures 0xb <= n <= 0xc <==> n in {0xb, 0xc}
    ensures 0x1c <= n <= 0x1f <==> n in {0x1c, 0x1d, 0x1e, 0x1f}
    ensures 0x2000 <= n <= 0x200a <==>
      n in {0x2000, 0x2001, 0x2002, 0x2003, 0x2004, 0x2005, 0x2006, 0x2007, 0x2008, 0x2009, 0x200a}
  {
  }

  predicate Blank(s: string) {
    forall i :: 0 <= i < |s| ==> s[i] in PYTHON_SPACE
  }

  /** `t` is `s` without the spaces around it. */
  ghost predicate Stripped(s: string, t: string) {
    (exists a, b :: Around(s, a, t, b)) && (t == "" || (t[0] !in PYTHON_SPACE && t[|t| - 1] !in PYTHON_SPACE))
  }

  predicate Around(s: string, a: string, t: string, b: string) {
    Blank(a) && Blank(b) && s == a + t + b
  }

  lemma {:induction false} StripLeftExact(s: string) returns (a: string)
    ensures Blank(a) && s == a + StripLeft(s) && (StripLeft(s) == "" || StripLeft(s)[0] !in PYTHON_SPACE)
  {
    a := "";
    if s != [] {
      SpacesListed(s[0]);
      if IsSpace(s[0]) {
        var rest := StripLeftExact(s[1..]);
        a := [s[0]] + rest;
        assert s == [s[0]] + s[1..];
      }
    }
  }

  lemma {:induction false} StripRightExact(s: string) returns (b: string)
    ensures Blank(b) && s == StripRight(s) + b
    ensures StripRight(s) == "" || StripRight(s)[|StripRight(s)| - 1] !in PYTHON_SPACE
  {
    b := "";
    if s != [] {
      var n := |s| - 1;
      SpacesListed(s[n]);
      if IsSpace(s[n]) {
        var rest := StripRightExact(s[..n]);
        b := rest + [s[n]];
        LastMoves(s, StripRight(s[..n]), rest);
      }
    }
  }

  lemma {:induction false} LastMoves(s: string, t: string, rest: string)
    requires s != "" && s[..|s| - 1] == t + rest
    ensures s == t + (rest + [s[|s| - 1]])
  {
    assert s == s[..|s| - 1] + [s[|s| - 1]];
  }

  lemma {:induction false} StripExact(s: string)
    ensures Stripped(s, StripRight(StripLeft(s)))
  {
    var a := StripLeftExact(s);
    var left := StripLeft(s);
    var b := StripRightExact(left);
    var t := StripRight(left);
    assert a + (t + b) == a + t + b;
    assert Around(s, a, t, b);
    assert t != "" ==> t[0] == (t + b)[0] == left[0];
  }

  lemma {:induction false} LeftOf(a: string, rest: string)
    requires Blank(a)
    ensures StripLeft(a + rest) == StripLeft(rest)
  {
    if a == "" {
      assert a + rest == rest;
    } else {
      SpacesListed(a[0]);
      assert (a + rest)[1..] == a[1..] + rest;
      LeftOf(a[1..], rest);
    }
  }

  lemma {:induction false} RightOf(t: string, b: string)
    requires Blank(b) && t != "" && t[|t| - 1] !in PYTHON_SPACE
    ensures StripRight(t + b) == t
  {
    if b == "" {
      assert t + b == t;
      SpacesListed(t[|t| - 1]);
    } else {
      var n := |b| - 1;
      SpacesListed(b[n]);
      assert (t + b)[..|t + b| - 1] == t + b[..n] && (t + b)[|t + b| - 1] == b[n];
      RightOf(t, b[..n]);
    }
  }

  lemma {:induction false} AllBlank(s: string)
    requires Blank(s)
    ensures StripLeft(s) == ""
  {
    if s != "" {
      SpacesListed(s[0]);
      AllBlank(s[1..]);
    }
  }

  lemma {:induction false} StripUnique(s: string, t: string)
    requires Stripped(s, t)
    ensures t == StripRight(StripLeft(s))
  {
    var a, b :| Around(s, a, t, b);
    LeftOf(a, t + b);
    assert a + t + b == a + (t + b);
    if t == "" {
      assert t + b == b;
      AllBlank(b);
    } else {
      assert (t + b)[0] == t[0];
      SpacesListed(t[0]);
      RightOf(t, b);
    }
  }

  /** What the event prints, if it is not one of Go's own markers. */
  ghost predicate Tells(e: Event, text: string) {
    e.action == Output && e.output.Text? && Stripped(e.output.text, text) && text != "" && !("===" <= text) && !("---" <= text)
  }

  function Beginning(text: string): string {
    if |text| > 1000 then text[..1000] else text
  }

  /** Nothing from position `i` on tells anything. */
  ghost predicate Silent(evs: seq<Event>, i: nat) {
    forall j, text :: i <= j < |evs| ==> !Tells(evs[j], text)
  }

  /** The reason given: the beginning of the last thing told, if anything is. */
  ghost predicate Reason(evs: seq<Event>, reason: string) {
    (reason == "" && Silent(evs, 0)) || exists i: nat, text :: ToldLast(evs, i, text) && reason == Beginning(text)
  }

  ghost predicate ToldLast(evs: seq<Event>, i: nat, text: string) {
    i < |evs| && Tells(evs[i], text) && Silent(evs, i + 1)
  }

  lemma {:induction false} NextReasonExact(e: Event, reason: string, text: string)
    requires e.action == Output
    ensures Tells(e, text) ==> NextReason(reason, OutputText(e)) == Beginning(text)
    ensures NextReason(reason, OutputText(e)) != reason ==> exists told :: Tells(e, told)
  {
    var output := OutputText(e);
    var t := StripRight(StripLeft(output));
    StripExact(output);
    if Tells(e, text) { StripUnique(output, text); }
    assert !e.output.Text? ==> t == "";
    if t != "" && !("===" <= t) && !("---" <= t) { assert Tells(e, t); }
  }

  lemma {:induction false} SilentNext(evs: seq<Event>, e: Event, i: nat)
    requires Silent(evs, i) && forall text :: !Tells(e, text)
    ensures Silent(evs + [e], i)
  {
    var all := evs + [e];
    forall j, text | i <= j < |all| ensures !Tells(all[j], text) {
      if j < |evs| { assert all[j] == evs[j]; }
    }
  }

  lemma {:induction false} ReasonNext(evs: seq<Event>, e: Event, reason: string, next: string)
    requires Reason(evs, reason)
    requires (exists text :: Tells(e, text) && next == Beginning(text)) || ((forall text :: !Tells(e, text)) && next == reason)
    ensures Reason(evs + [e], next)
  {
    var all := evs + [e];
    if text :| Tells(e, text) && next == Beginning(text) {
      assert all[|evs|] == e;
      assert ToldLast(all, |evs|, text);
    } else if reason == "" && Silent(evs, 0) {
      SilentNext(evs, e, 0);
    } else {
      var i: nat, text :| ToldLast(evs, i, text) && reason == Beginning(text);
      SilentNext(evs, e, i + 1);
      assert all[i] == evs[i];
      assert ToldLast(all, i, text);
    }
  }

  // Rows.

  lemma {:induction false} OpenRow(evs: seq<Event>)
    requires OpenTest(evs)
    ensures RunTest(evs).Ok?
    ensures var row := RunTest(evs).value; row.runs == 1 && row.verdict == Pending && Reason(evs, row.skipReason)
  {
    var n := |evs| - 1;
    if n == 0 {
      assert evs[..0] == [];
      assert Silent(evs, 0);
    } else {
      var front, e := evs[..n], evs[n];
      assert evs == front + [e];
      OpenRow(front);
      var had := RunTest(front).value.skipReason;
      if e.action == Output {
        OutputReason(e, had);
        ReasonNext(front, e, had, NextReason(had, OutputText(e)));
      } else {
        ReasonNext(front, e, had, had);
      }
    }
  }

  lemma {:induction false} OutputReason(e: Event, reason: string)
    requires e.action == Output
    ensures var next := NextReason(reason, OutputText(e));
      (exists text :: Tells(e, text) && next == Beginning(text)) || ((forall text :: !Tells(e, text)) && next == reason)
  {
    var next := NextReason(reason, OutputText(e));
    if text :| Tells(e, text) {
      NextReasonExact(e, reason, text);
    } else {
      NextReasonExact(e, reason, "");
    }
  }

  /** The time the event gives, or zero. */
  predicate Took(e: Event, seconds: real) {
    if e.elapsed.Number? then seconds == e.elapsed.value else seconds == 0.0
  }

  /** What the row of a test must say: one run, the verdict and time of its last event, and the reason of a skip. */
  ghost predicate RowTells(evs: seq<Event>, row: TestRow) {
    && evs != [] && row.runs == 1
    && var last := evs[|evs| - 1];
       && row.verdict == (if last.action == Pass then Passed else Skipped) && Took(last, row.elapsed)
       && (if last.action == Skip then Reason(evs[..|evs| - 1], row.skipReason) else row.skipReason == "")
  }

  ghost predicate PackageTells(evs: seq<Event>, row: PackageRow) {
    && evs != [] && row.started
    && var last := evs[|evs| - 1]; row.verdict == (if last.action == Pass then Passed else Skipped) && Took(last, row.elapsed)
  }

  lemma {:induction false} LifecycleRow(evs: seq<Event>)
    requires TestLifecycle(evs)
    ensures RunTest(evs).Ok? && RowTells(evs, RunTest(evs).value)
  {
    TestLifecycleExact(evs);
    OpenRow(evs[..|evs| - 1]);
  }

  lemma {:induction false} PackageLifecycleRow(evs: seq<Event>)
    requires PackageLifecycle(evs)
    ensures RunPackage(evs).Ok? && PackageTells(evs, RunPackage(evs).value)
  {
    PackageLifecycleExact(evs);
    OpenPackageExact(evs[..|evs| - 1]);
  }

  ghost predicate InOrder(tests: seq<TestResult>) {
    forall i, j :: 0 <= i < j < |tests| ==>
      if tests[i].package == tests[j].package then tests[i].name != tests[j].name && LessEq(tests[i].name, tests[j].name)
      else LessEq(tests[i].package, tests[j].package)
  }

  lemma {:induction false} ListingInOrder(tests: map<Key, TestRow>)
    ensures InOrder(Listing(tests))
  {
    PairLessEqIsTotalOrder();
  }

  /** An accepted stream's report: the tests by package and name, each with what its own events say, and so for the packages. */
  lemma {:induction false} ReportTells(lines: seq<Line>, r: Report)
    requires ReportOf(lines) == Ok(r)
    ensures InOrder(r.tests)
    ensures forall i :: 0 <= i < |r.tests| ==> RowTells(EventsAbout(lines, OfTest((r.tests[i].package, r.tests[i].name))), r.tests[i].row)
    ensures forall p :: p in r.packages <==> EventsAbout(lines, OfPackage(p)) != []
    ensures forall p :: p in r.packages ==> PackageTells(EventsAbout(lines, OfPackage(p)), r.packages[p])
  {
    var t := Fold(lines).value;
    AcceptsExactly(lines);
    FoldFollows(lines);
    RowPresence(lines);
    ListingInOrder(t.tests);
    forall i | 0 <= i < |r.tests| ensures RowTells(EventsAbout(lines, OfTest((r.tests[i].package, r.tests[i].name))), r.tests[i].row) {
      var k := (r.tests[i].package, r.tests[i].name);
      assert RowOf(t.tests, k) == RunTest(EventsAbout(lines, OfTest(k)));
      LifecycleRow(EventsAbout(lines, OfTest(k)));
    }
    forall p | p in r.packages ensures PackageTells(EventsAbout(lines, OfPackage(p)), r.packages[p]) {
      assert RowOf(t.packages, p) == RunPackage(EventsAbout(lines, OfPackage(p)));
      PackageLifecycleRow(EventsAbout(lines, OfPackage(p)));
    }
  }
}
